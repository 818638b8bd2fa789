/** Any number of relays draining one outbox concurrently: each locks a batch, sends, marks
    its rows, and then commits, or aborts, or is killed with its transaction rolled back.
    Sends leave the process at once and are never undone. */
module Relays {
  import opened Wrappers
  import opened Outbox

  /** A relay's open transaction. `next` is the row it is dispatching, `reached` how many
      of that row's actors it has sent to; `writes` are its uncommitted updates, and
      `completed` and `charged` the rows it dispatched and those it charged a failure. */
  datatype Txn = Txn(moment: int, locked: seq<nat>, next: nat, reached: nat,
                     writes: map<nat, Row>, completed: set<nat>, charged: set<nat>)

  /** The committed table and the history a run leaves: every event ever created with its
      row as created, every send, and per event how often it was completely dispatched,
      how many of those were rolled back, and when its committed failures were charged. */
  datatype Sys = Sys(rows: map<nat, Row>, txns: map<nat, Txn>,
                     events: map<nat, Row>, purged: set<nat>, sends: set<(nat, string)>,
                     completions: map<nat, nat>, rollbacks: map<nat, nat>, failures: map<nat, seq<int>>)

  datatype Event =
    | Create(id: nat, routed: bool, targets: seq<string>, at: int)
    | Begin(relay: nat, moment: int, batch: nat, locked: seq<nat>)
    | Send(relay: nat)
    | Finish(relay: nat)
    | Fail(relay: nat, transient: bool)
    | Commit(relay: nat)
    | Abort(relay: nat)
    | Purge(horizon: int)

  const Start: Sys := Sys(map[], map[], map[], {}, {}, map[], map[], map[])

  function LockedIds(s: Sys): set<nat> {
    set r, id | r in s.txns && id in s.txns[r].locked :: id
  }

  predicate Busy(s: Sys, relay: nat) {
    relay in s.txns && s.txns[relay].next < |s.txns[relay].locked|
  }

  function Current(t: Txn): nat
    requires t.next < |t.locked|
  {
    t.locked[t.next]
  }

  ghost predicate Enabled(s: Sys, e: Event) {
    match e
    case Create(id, _, _, _) => id !in s.events
    case Begin(r, moment, batch, locked) =>
      r !in s.txns && IsSelection(s.rows, LockedIds(s), moment, batch, locked)
    case Send(r) =>
      && Busy(s, r)
      && Current(s.txns[r]) in s.rows
      && s.rows[Current(s.txns[r])].routed
      && s.txns[r].reached < |s.rows[Current(s.txns[r])].targets|
    case Finish(r) =>
      && Busy(s, r)
      && Current(s.txns[r]) in s.rows
      && s.rows[Current(s.txns[r])].routed
      && s.txns[r].reached == |s.rows[Current(s.txns[r])].targets|
    case Fail(r, _) => Busy(s, r) && Current(s.txns[r]) in s.rows
    case Commit(r) => r in s.txns && s.txns[r].next == |s.txns[r].locked|
    case Abort(r) => r in s.txns
    case Purge(_) => true
  }

  ghost function Step(s: Sys, e: Event): Sys
    requires Enabled(s, e)
  {
    match e
    case Create(id, routed, targets, at) =>
      var row := Row(routed, targets, 0, at, None);
      s.(rows := s.rows[id := row], events := s.events[id := row],
         completions := s.completions[id := 0], rollbacks := s.rollbacks[id := 0],
         failures := s.failures[id := []])
    case Begin(r, moment, _, locked) =>
      s.(txns := s.txns[r := Txn(moment, locked, 0, 0, map[], {}, {})])
    case Send(r) =>
      var t := s.txns[r];
      var id := Current(t);
      s.(txns := s.txns[r := t.(reached := t.reached + 1)],
         sends := s.sends + {(id, s.rows[id].targets[t.reached])})
    case Finish(r) =>
      var t := s.txns[r];
      var id := Current(t);
      s.(txns := s.txns[r := t.(next := t.next + 1, reached := 0, completed := t.completed + {id},
                                writes := t.writes[id := Marked(s.rows[id], t.moment)])],
         completions := s.completions[id := Count(s.completions, id) + 1])
    case Fail(r, transient) =>
      var t := s.txns[r];
      var id := Current(t);
      s.(txns := s.txns[r := t.(next := t.next + 1, reached := 0,
                                charged := if transient then t.charged else t.charged + {id},
                                writes := t.writes[id := Rescheduled(s.rows[id], transient, t.moment)])])
    case Commit(r) =>
      var t := s.txns[r];
      s.(rows := s.rows + t.writes, txns := s.txns - {r},
         failures := map id | id in s.failures ::
           s.failures[id] + if id in t.charged then [t.moment] else [])
    case Abort(r) =>
      var t := s.txns[r];
      s.(txns := s.txns - {r},
         rollbacks := map id | id in s.rollbacks :: s.rollbacks[id] + if id in t.completed then 1 else 0)
    case Purge(horizon) =>
      var rows := Kept(s.rows, horizon);
      s.(rows := rows, purged := s.purged + (s.rows.Keys - rows.Keys))
  }

  function Count(m: map<nat, nat>, id: nat): nat {
    if id in m then m[id] else 0
  }

  // ---------------------------------------------------------------- the invariant

  /** Every actor of the event has been sent to. */
  ghost predicate AllSent(s: Sys, id: nat)
    requires id in s.events
  {
    forall a :: a in s.events[id].targets ==> (id, a) in s.sends
  }

  ghost predicate Completing(s: Sys, id: nat) {
    exists r :: r in s.txns && id in s.txns[r].completed
  }

  ghost predicate Gone(s: Sys, id: nat) {
    id in s.purged || (id in s.rows && s.rows[id].dispatchedAt.Some?)
  }

  /** Consecutive charged failures are a rung of the ladder apart. */
  ghost predicate Spaced(failures: seq<int>) {
    forall i :: 0 <= i < |failures| - 1 ==> failures[i + 1] - failures[i] >= Pow2(i + 1)
  }

  ghost predicate RowInv(row: Row, event: Row, failures: seq<int>) {
    && row.routed == event.routed && row.targets == event.targets
    && row.attempts == |failures|
    && (failures != [] ==> row.availableAt >= failures[|failures| - 1] + Pow2(|failures|))
  }

  ghost predicate EventInv(s: Sys, id: nat)
    requires id in s.events && id in s.failures && id in s.completions && id in s.rollbacks
  {
    && (id in s.rows <==> id !in s.purged)
    && (id in s.rows ==> RowInv(s.rows[id], s.events[id], s.failures[id]))
    && |s.failures[id]| <= MAX_ATTEMPTS && Spaced(s.failures[id])
    && (Gone(s, id) ==> s.events[id].routed && AllSent(s, id))
    && s.completions[id] == s.rollbacks[id] + (if Gone(s, id) then 1 else 0) + (if Completing(s, id) then 1 else 0)
  }

  ghost predicate EventsInv(s: Sys) {
    && s.events.Keys == s.failures.Keys == s.completions.Keys == s.rollbacks.Keys
    && s.rows.Keys <= s.events.Keys && s.purged <= s.events.Keys
    && (forall id :: id in s.events ==> EventInv(s, id))
  }

  /** What a locked row will be written as, once dispatched. */
  ghost predicate WriteInv(s: Sys, t: Txn, id: nat)
    requires id in s.rows && id in t.writes && id in s.events
  {
    if id in t.completed then
      t.writes[id] == Marked(s.rows[id], t.moment) && id !in t.charged && s.events[id].routed && AllSent(s, id)
    else
      t.writes[id] == Rescheduled(s.rows[id], id !in t.charged, t.moment)
  }

  /** The locked rows are there, and still as the SELECT found them. */
  ghost predicate LockedInv(s: Sys, t: Txn) {
    && Distinct(t.locked)
    && t.next <= |t.locked|
    && (forall id :: id in t.locked ==> id in s.rows && id in s.events && Eligible(s.rows[id], t.moment))
  }

  ghost predicate WritesInv(s: Sys, t: Txn)
    requires LockedInv(s, t)
  {
    && t.writes.Keys == AsSet(t.locked[..t.next])
    && t.completed <= t.writes.Keys && t.charged <= t.writes.Keys
    && (forall id :: id in t.writes ==> id in t.locked && WriteInv(s, t, id))
  }

  ghost predicate ProgressInv(s: Sys, t: Txn)
    requires LockedInv(s, t)
  {
    t.next < |t.locked| ==>
      && t.reached <= |s.events[Current(t)].targets|
      && forall j :: 0 <= j < t.reached ==> (Current(t), s.events[Current(t)].targets[j]) in s.sends
  }

  ghost predicate TxnInv(s: Sys, t: Txn) {
    LockedInv(s, t) && WritesInv(s, t) && ProgressInv(s, t)
  }

  ghost predicate LocksInv(s: Sys) {
    && (forall r :: r in s.txns ==> TxnInv(s, s.txns[r]))
    && (forall r, q, id :: r in s.txns && q in s.txns && id in s.txns[r].locked && id in s.txns[q].locked ==> r == q)
  }

  ghost predicate Inv(s: Sys) {
    EventsInv(s) && LocksInv(s)
  }

  // ---------------------------------------------------------------- one step at a time

  /** The ten-minute cap is never what delays a row that can still be retried. */
  lemma LadderFits(attempts: nat)
    requires attempts < MAX_ATTEMPTS
    ensures Delay(attempts) == Pow2(attempts + 1) < BACKOFF_CAP
  {
    assert Pow2(4) == 16 && Pow2(8) == 16 * Pow2(4);
    Pow2Grows(attempts + 1, 8);
  }

  /** What an attempt makes of a row that was due. Sent, it is marked with the moment and never due
      again. Otherwise it is due again exactly from two to the number of attempts so far, this one
      counted, seconds later; a poisonous outcome counts, a transient one does not, and eight that
      count are the end. */
  lemma OutcomeDecides(row: Row, outcome: Outcome, moment: int, later: int)
    requires Eligible(row, moment)
    ensures var after := Updated(row, outcome, moment);
      if outcome == Sent then after == row.(dispatchedAt := Some(moment)) && !Eligible(after, later)
      else
        var charged, due := row.attempts + (if outcome == Poison then 1 else 0), moment + Pow2(row.attempts + 1);
        && after == row.(attempts := charged, availableAt := due)
        && (Eligible(after, later) <==> charged < 8 && due <= later)
  {
    LadderFits(row.attempts);
  }

  lemma {:induction false} Pow2Grows(a: nat, b: nat)
    requires a <= b
    ensures Pow2(a) <= Pow2(b)
    decreases b
  {
    if a < b {
      Pow2Grows(a, b - 1);
    }
  }

  /** Nothing the invariant says about one event has changed. */
  ghost predicate SameFor(s: Sys, s': Sys, id: nat) {
    && id in s.events && id in s'.events && s.events[id] == s'.events[id]
    && (id in s.rows <==> id in s'.rows) && (id in s.rows ==> s.rows[id] == s'.rows[id])
    && (id in s.purged <==> id in s'.purged)
    && id in s.failures && id in s'.failures && s.failures[id] == s'.failures[id]
    && id in s.completions && id in s'.completions && s.completions[id] == s'.completions[id]
    && id in s.rollbacks && id in s'.rollbacks && s.rollbacks[id] == s'.rollbacks[id]
    && (Completing(s, id) <==> Completing(s', id))
    && s.sends <= s'.sends
  }

  lemma SameKeepsEvent(s: Sys, s': Sys, id: nat)
    requires SameFor(s, s', id) && EventInv(s, id)
    ensures EventInv(s', id)
  {
  }

  /** Nothing the invariant says about one transaction has changed. */
  lemma SameKeepsTxn(s: Sys, s': Sys, t: Txn)
    requires TxnInv(s, t)
    requires forall id :: id in t.locked ==> id in s'.rows && s'.rows[id] == s.rows[id]
    requires forall id :: id in t.locked ==> id in s'.events && s'.events[id] == s.events[id]
    requires s.sends <= s'.sends
    ensures TxnInv(s', t)
  {
  }

  /** Only `relay`'s transaction differs, and whether it completed `id` does not. */
  lemma CompletingMoves(s: Sys, s': Sys, relay: nat, id: nat)
    requires forall r :: r != relay ==> (r in s.txns <==> r in s'.txns)
    requires forall r :: r != relay && r in s.txns ==> s.txns[r] == s'.txns[r]
    requires (relay in s.txns && id in s.txns[relay].completed) <==>
             (relay in s'.txns && id in s'.txns[relay].completed)
    ensures Completing(s, id) <==> Completing(s', id)
  {
  }

  /** Some transaction other than `relay`'s holds the row. */
  ghost predicate HeldElsewhere(s: Sys, relay: nat, id: nat) {
    exists r :: r in s.txns && r != relay && id in s.txns[r].locked
  }

  /** A step of one relay leaves the other transactions as they were. */
  lemma LocksFrame(s: Sys, s': Sys, relay: nat)
    requires LocksInv(s)
    requires forall r :: r in s'.txns && r != relay ==> r in s.txns && s'.txns[r] == s.txns[r]
    requires forall id :: HeldElsewhere(s, relay, id) ==>
      id in s.rows && id in s'.rows && s'.rows[id] == s.rows[id]
    requires forall id :: id in s.events ==> id in s'.events && s'.events[id] == s.events[id]
    requires s.sends <= s'.sends
    requires relay in s'.txns ==>
      TxnInv(s', s'.txns[relay]) && forall id :: id in s'.txns[relay].locked ==> !HeldElsewhere(s, relay, id)
    ensures LocksInv(s')
  {
    forall r | r in s'.txns
      ensures TxnInv(s', s'.txns[r])
    {
      if r != relay {
        assert TxnInv(s, s.txns[r]);
        assert forall id :: id in s.txns[r].locked ==> HeldElsewhere(s, relay, id);
        SameKeepsTxn(s, s', s.txns[r]);
      }
    }
    forall r, q, id | r in s'.txns && q in s'.txns && id in s'.txns[r].locked && id in s'.txns[q].locked
      ensures r == q
    {
      assert r != relay ==> HeldElsewhere(s, relay, id);
      assert q != relay ==> HeldElsewhere(s, relay, id);
    }
  }

  lemma LocksAreExclusive(s: Sys, relay: nat, id: nat)
    requires LocksInv(s) && relay in s.txns && id in s.txns[relay].locked
    ensures !HeldElsewhere(s, relay, id)
    ensures Completing(s, id) <==> id in s.txns[relay].completed
    ensures id in s.txns[relay].writes <==> id in s.txns[relay].locked[..s.txns[relay].next]
  {
    assert TxnInv(s, s.txns[relay]);
    forall r | r in s.txns && id in s.txns[r].completed
      ensures r == relay
    {
      assert TxnInv(s, s.txns[r]);
      assert id in s.txns[r].writes;
    }
  }

  /** A step that writes neither the table nor the history, and completes nothing. */
  lemma QuietKeepsEvents(s: Sys, s': Sys, relay: nat)
    requires EventsInv(s)
    requires s' == s.(txns := s'.txns, sends := s'.sends) && s.sends <= s'.sends
    requires forall r :: r != relay ==> (r in s.txns <==> r in s'.txns)
    requires forall r :: r != relay && r in s.txns ==> s.txns[r] == s'.txns[r]
    requires (if relay in s.txns then s.txns[relay].completed else {})
          == (if relay in s'.txns then s'.txns[relay].completed else {})
    ensures EventsInv(s')
  {
    forall id | id in s.events
      ensures EventInv(s', id)
    {
      CompletingMoves(s, s', relay, id);
      SameKeepsEvent(s, s', id);
    }
  }

  lemma CreateKeepsEvents(s: Sys, e: Event)
    requires EventsInv(s) && Enabled(s, e) && e.Create?
    requires !Completing(s, e.id)
    ensures EventsInv(Step(s, e))
  {
    var s' := Step(s, e);
    forall id | id in s'.events
      ensures EventInv(s', id)
    {
      assert Completing(s', id) <==> Completing(s, id);
      if id != e.id {
        SameKeepsEvent(s, s', id);
      }
    }
  }

  lemma CreateKeepsLocks(s: Sys, e: Event)
    requires EventsInv(s) && LocksInv(s) && Enabled(s, e) && e.Create?
    ensures LocksInv(Step(s, e))
  {
    var s' := Step(s, e);
    forall r | r in s.txns
      ensures TxnInv(s', s.txns[r])
    {
      assert TxnInv(s, s.txns[r]);
      SameKeepsTxn(s, s', s.txns[r]);
    }
  }

  lemma BeginKeepsLocks(s: Sys, e: Event)
    requires Inv(s) && Enabled(s, e) && e.Begin?
    ensures LocksInv(Step(s, e))
  {
    var s' := Step(s, e);
    SelectionIsFree(s, e);
    forall id | HeldElsewhere(s, e.relay, id)
      ensures id in s.rows
    {
      HeldRowsExist(s, e.relay, id);
    }
    BegunKeepsTxn(s, e);
    LocksFrame(s, s', e.relay);
  }

  lemma SelectionIsFree(s: Sys, e: Event)
    requires Enabled(s, e) && e.Begin?
    ensures forall id :: id in e.locked ==> !HeldElsewhere(s, e.relay, id)
  {
    SelectionIsDistinct(s.rows, LockedIds(s), e.moment, e.batch, e.locked);
    forall id | id in e.locked
      ensures !HeldElsewhere(s, e.relay, id)
    {
      assert id !in LockedIds(s);
    }
  }

  lemma BegunKeepsTxn(s: Sys, e: Event)
    requires EventsInv(s) && Enabled(s, e) && e.Begin?
    ensures TxnInv(Step(s, e), Step(s, e).txns[e.relay])
  {
    var t := Step(s, e).txns[e.relay];
    SelectionIsDistinct(s.rows, LockedIds(s), e.moment, e.batch, e.locked);
    assert t.locked[..0] == [] && AsSet(t.locked[..0]) == {};
  }

  lemma HeldRowsExist(s: Sys, relay: nat, id: nat)
    requires LocksInv(s) && HeldElsewhere(s, relay, id)
    ensures id in s.rows
  {
    var r :| r in s.txns && r != relay && id in s.txns[r].locked;
    assert TxnInv(s, s.txns[r]);
  }

  /** A step of `relay` that leaves the table alone and gives it the transaction `t'`. */
  lemma TxnStepKeepsLocks(s: Sys, s': Sys, relay: nat)
    requires LocksInv(s) && relay in s.txns && relay in s'.txns
    requires s'.rows == s.rows && s'.events == s.events && s.sends <= s'.sends
    requires s'.txns == s.txns[relay := s'.txns[relay]]
    requires s'.txns[relay].locked == s.txns[relay].locked
    requires TxnInv(s', s'.txns[relay])
    ensures LocksInv(s')
  {
    forall id | HeldElsewhere(s, relay, id)
      ensures id in s.rows
    {
      HeldRowsExist(s, relay, id);
    }
    forall id | id in s.txns[relay].locked
      ensures !HeldElsewhere(s, relay, id)
    {
      LocksAreExclusive(s, relay, id);
    }
    LocksFrame(s, s', relay);
  }

  lemma SendKeepsTxn(s: Sys, t: Txn, s': Sys)
    requires TxnInv(s, t) && t.next < |t.locked| && t.reached < |s.events[Current(t)].targets|
    requires s'.rows == s.rows && s'.events == s.events
    requires s'.sends == s.sends + {(Current(t), s.events[Current(t)].targets[t.reached])}
    ensures TxnInv(s', t.(reached := t.reached + 1))
  {
    SameKeepsTxn(s, s', t);
    var t' := t.(reached := t.reached + 1);
    assert LockedInv(s', t');
    forall id | id in t'.writes
      ensures id in t'.locked && WriteInv(s', t', id)
    {
      assert WriteInv(s', t, id);
    }
  }

  lemma SendKeepsLocks(s: Sys, e: Event)
    requires LocksInv(s) && Enabled(s, e) && e.Send?
    requires Current(s.txns[e.relay]) in s.events
    requires s.rows[Current(s.txns[e.relay])].targets == s.events[Current(s.txns[e.relay])].targets
    ensures LocksInv(Step(s, e))
  {
    assert TxnInv(s, s.txns[e.relay]);
    SendKeepsTxn(s, s.txns[e.relay], Step(s, e));
    TxnStepKeepsLocks(s, Step(s, e), e.relay);
  }

  lemma SendKeepsEvents(s: Sys, e: Event)
    requires EventsInv(s) && Enabled(s, e) && e.Send?
    ensures EventsInv(Step(s, e))
  {
    QuietKeepsEvents(s, Step(s, e), e.relay);
  }

  /** The transaction after its current row's dispatch has ended. */
  lemma AdvanceKeepsTxn(s: Sys, t: Txn, t': Txn)
    requires TxnInv(s, t) && t.next < |t.locked|
    requires t' == t.(next := t.next + 1, reached := 0,
                      writes := t'.writes, completed := t'.completed, charged := t'.charged)
    requires var id := Current(t);
      && id in t'.writes && t'.writes == t.writes[id := t'.writes[id]]
      && t'.completed - {id} == t.completed && t'.charged - {id} == t.charged
      && WriteInv(s, t', id)
    ensures TxnInv(s, t')
  {
    var id := Current(t);
    assert t'.locked[..t'.next] == t.locked[..t.next] + [id];
    AsSetSnoc(t.locked[..t.next], id);
    assert id !in AsSet(t.locked[..t.next]);
    forall other | other in t'.writes
      ensures other in t'.locked && WriteInv(s, t', other)
    {
      assert other != id ==> other in t.writes && WriteInv(s, t, other);
    }
  }

  lemma CurrentIsNew(s: Sys, t: Txn)
    requires TxnInv(s, t) && t.next < |t.locked|
    ensures Current(t) !in t.writes && Current(t) !in t.completed && Current(t) !in t.charged
    ensures Current(t) in t.locked
  {
    assert Current(t) !in AsSet(t.locked[..t.next]);
  }

  lemma FailKeepsLocks(s: Sys, e: Event)
    requires LocksInv(s) && Enabled(s, e) && e.Fail?
    ensures LocksInv(Step(s, e))
  {
    var s' := Step(s, e);
    var t := s.txns[e.relay];
    assert TxnInv(s, t);
    CurrentIsNew(s, t);
    AdvanceKeepsTxn(s, t, s'.txns[e.relay]);
    SameKeepsTxn(s, s', s'.txns[e.relay]);
    TxnStepKeepsLocks(s, s', e.relay);
  }

  lemma FinishedIsSent(s: Sys, e: Event)
    requires Inv(s) && Enabled(s, e) && e.Finish?
    ensures var id := Current(s.txns[e.relay]);
      id in s.rows && id in s.events && s.events[id].routed && AllSent(s, id)
  {
    var t := s.txns[e.relay];
    assert TxnInv(s, t);
    assert EventInv(s, Current(t));
  }

  lemma FinishKeepsTxn(s: Sys, e: Event)
    requires Inv(s) && Enabled(s, e) && e.Finish?
    ensures TxnInv(s, Step(s, e).txns[e.relay])
  {
    var t := s.txns[e.relay];
    assert TxnInv(s, t);
    CurrentIsNew(s, t);
    FinishedIsSent(s, e);
    AdvanceKeepsTxn(s, t, Step(s, e).txns[e.relay]);
  }

  lemma FinishKeepsLocks(s: Sys, e: Event)
    requires Inv(s) && Enabled(s, e) && e.Finish?
    ensures LocksInv(Step(s, e))
  {
    var s' := Step(s, e);
    FinishKeepsTxn(s, e);
    SameKeepsTxn(s, s', s'.txns[e.relay]);
    TxnStepKeepsLocks(s, s', e.relay);
  }

  lemma FinishKeepsEvents(s: Sys, e: Event)
    requires Inv(s) && Enabled(s, e) && e.Finish?
    ensures EventsInv(Step(s, e))
  {
    var s' := Step(s, e);
    var t := s.txns[e.relay];
    assert TxnInv(s, t);
    CurrentIsNew(s, t);
    LocksAreExclusive(s, e.relay, Current(t));
    assert Completing(s', Current(t)) by {
      assert Current(t) in s'.txns[e.relay].completed;
    }
    forall id | id in s.events
      ensures EventInv(s', id)
    {
      assert EventInv(s, id);
      if id != Current(t) {
        CompletingMoves(s, s', e.relay, id);
        SameKeepsEvent(s, s', id);
      }
    }
  }

  lemma ClosingKeepsLocks(s: Sys, s': Sys, relay: nat)
    requires LocksInv(s) && relay in s.txns
    requires s'.txns == s.txns - {relay} && s'.events == s.events && s'.sends == s.sends
    requires forall id :: id in s.rows && id !in s.txns[relay].locked ==> id in s'.rows && s'.rows[id] == s.rows[id]
    ensures LocksInv(s')
  {
    forall id | HeldElsewhere(s, relay, id)
      ensures id in s.rows && id !in s.txns[relay].locked
    {
      HeldRowsExist(s, relay, id);
      if id in s.txns[relay].locked {
        LocksAreExclusive(s, relay, id);
      }
    }
    LocksFrame(s, s', relay);
  }

  lemma AbortKeeps(s: Sys, e: Event)
    requires Inv(s) && Enabled(s, e) && e.Abort?
    ensures Inv(Step(s, e))
  {
    var s' := Step(s, e);
    var t := s.txns[e.relay];
    assert TxnInv(s, t);
    ClosingKeepsLocks(s, s', e.relay);
    forall id | id in s.events
      ensures EventInv(s', id)
    {
      assert EventInv(s, id);
      if id in t.completed {
        assert id in t.writes;
        LocksAreExclusive(s, e.relay, id);
      } else {
        CompletingMoves(s, s', e.relay, id);
        SameKeepsEvent(s, s', id);
      }
    }
  }

  /** What committing does to one row of the batch. */
  lemma CommitKeepsRow(row: Row, event: Row, failures: seq<int>, moment: int, sent: bool, charged: bool)
    requires RowInv(row, event, failures) && Spaced(failures) && Eligible(row, moment)
    requires sent ==> !charged
    ensures var row' := if sent then Marked(row, moment) else Rescheduled(row, !charged, moment);
            var failures' := failures + if charged then [moment] else [];
            RowInv(row', event, failures') && Spaced(failures') && |failures'| <= MAX_ATTEMPTS
  {
    LadderFits(row.attempts);
  }

  lemma CommitKeepsWritten(s: Sys, e: Event, id: nat)
    requires Inv(s) && Enabled(s, e) && e.Commit? && id in s.txns[e.relay].writes
    ensures id in s.events && EventInv(Step(s, e), id)
  {
    var s' := Step(s, e);
    var t := s.txns[e.relay];
    assert TxnInv(s, t);
    assert WriteInv(s, t, id);
    assert EventInv(s, id);
    LocksAreExclusive(s, e.relay, id);
    CommitKeepsRow(s.rows[id], s.events[id], s.failures[id], t.moment, id in t.completed, id in t.charged);
  }

  lemma CommitKeeps(s: Sys, e: Event)
    requires Inv(s) && Enabled(s, e) && e.Commit?
    ensures Inv(Step(s, e))
  {
    var s' := Step(s, e);
    var t := s.txns[e.relay];
    assert TxnInv(s, t);
    ClosingKeepsLocks(s, s', e.relay);
    forall id | id in s.events
      ensures EventInv(s', id)
    {
      if id in t.writes {
        CommitKeepsWritten(s, e, id);
      } else {
        CompletingMoves(s, s', e.relay, id);
        SameKeepsEvent(s, s', id);
      }
    }
  }

  lemma PurgeKeepsLocks(s: Sys, e: Event)
    requires Inv(s) && Enabled(s, e) && e.Purge?
    ensures LocksInv(Step(s, e))
  {
    var s' := Step(s, e);
    forall r | r in s.txns
      ensures TxnInv(s', s.txns[r])
    {
      assert TxnInv(s, s.txns[r]);
      SameKeepsTxn(s, s', s.txns[r]);
    }
  }

  lemma PurgeKeepsEvents(s: Sys, e: Event)
    requires Inv(s) && Enabled(s, e) && e.Purge?
    ensures EventsInv(Step(s, e))
  {
    var s' := Step(s, e);
    assert forall id :: Completing(s', id) <==> Completing(s, id);
    forall id | id in s.events
      ensures EventInv(s', id)
    {
      assert EventInv(s, id);
    }
  }

  lemma BeginKeepsEvents(s: Sys, e: Event)
    requires Inv(s) && Enabled(s, e) && e.Begin?
    ensures EventsInv(Step(s, e))
  {
    QuietKeepsEvents(s, Step(s, e), e.relay);
  }

  lemma FailKeepsEvents(s: Sys, e: Event)
    requires Inv(s) && Enabled(s, e) && e.Fail?
    ensures EventsInv(Step(s, e))
  {
    QuietKeepsEvents(s, Step(s, e), e.relay);
  }

  lemma StepKeepsEvents(s: Sys, e: Event)
    requires Inv(s) && Enabled(s, e)
    ensures EventsInv(Step(s, e))
  {
    match e
    case Create(_, _, _, _) => CreateKeepsEvents(s, e);
    case Begin(_, _, _, _) => BeginKeepsEvents(s, e);
    case Send(_) => SendKeepsEvents(s, e);
    case Finish(_) => FinishKeepsEvents(s, e);
    case Fail(_, _) => FailKeepsEvents(s, e);
    case Commit(_) => CommitKeeps(s, e);
    case Abort(_) => AbortKeeps(s, e);
    case Purge(_) => PurgeKeepsEvents(s, e);
  }

  lemma StepKeepsLocks(s: Sys, e: Event)
    requires Inv(s) && Enabled(s, e)
    ensures LocksInv(Step(s, e))
  {
    match e
    case Create(_, _, _, _) => CreateKeepsLocks(s, e);
    case Begin(_, _, _, _) => BeginKeepsLocks(s, e);
    case Send(_) => SendKeepsLocks(s, e);
    case Finish(_) => FinishKeepsLocks(s, e);
    case Fail(_, _) => FailKeepsLocks(s, e);
    case Commit(_) => CommitKeeps(s, e);
    case Abort(_) => AbortKeeps(s, e);
    case Purge(_) => PurgeKeepsLocks(s, e);
  }

  lemma StepKeepsInv(s: Sys, e: Event)
    requires Inv(s) && Enabled(s, e)
    ensures Inv(Step(s, e))
  {
    StepKeepsEvents(s, e);
    StepKeepsLocks(s, e);
  }

  ghost predicate IsRun(s: Sys, es: seq<Event>)
    decreases |es|
  {
    es == [] || (Enabled(s, es[0]) && IsRun(Step(s, es[0]), es[1..]))
  }

  ghost function Final(s: Sys, es: seq<Event>): Sys
    requires IsRun(s, es)
    decreases |es|
  {
    if es == [] then s else Final(Step(s, es[0]), es[1..])
  }

  lemma {:induction false} RunKeepsInv(s: Sys, es: seq<Event>)
    requires Inv(s) && IsRun(s, es)
    ensures Inv(Final(s, es))
    decreases |es|
  {
    if es != [] {
      StepKeepsInv(s, es[0]);
      RunKeepsInv(Step(s, es[0]), es[1..]);
    }
  }

  ghost predicate Reaches(es: seq<Event>, s: Sys) {
    IsRun(Start, es) && Final(Start, es) == s
  }

  lemma ReachedInv(es: seq<Event>, s: Sys)
    requires Reaches(es, s)
    ensures Inv(s)
  {
    RunKeepsInv(Start, es);
  }

  // ---------------------------------------------------------------- what every run keeps

  /** At least once: an event that is marked dispatched in the committed table, or was
      purged from it, had a route and was sent to every one of its actors. */
  lemma DispatchedWasSent(es: seq<Event>, s: Sys, id: nat)
    requires Reaches(es, s)
    requires id in s.purged || (id in s.rows && s.rows[id].dispatchedAt.Some?)
    ensures id in s.events && s.events[id].routed
    ensures forall a :: a in s.events[id].targets ==> (id, a) in s.sends
  {
    ReachedInv(es, s);
    assert EventInv(s, id);
  }

  function Pending(rows: map<nat, Row>): set<nat> {
    set id | id in rows && rows[id].dispatchedAt.None? && rows[id].attempts < MAX_ATTEMPTS
  }

  function Stuck(rows: map<nat, Row>): set<nat> {
    set id | id in rows && rows[id].dispatchedAt.None? && rows[id].attempts >= MAX_ATTEMPTS
  }

  function Dispatched(rows: map<nat, Row>): set<nat> {
    set id | id in rows && rows[id].dispatchedAt.Some?
  }

  /** No event is lost or counted twice: every one ever created is pending, stuck,
      dispatched or purged, and only one of these. */
  lemma EveryEventIsAccountedFor(es: seq<Event>, s: Sys)
    requires Reaches(es, s)
    ensures s.events.Keys == Pending(s.rows) + Stuck(s.rows) + Dispatched(s.rows) + s.purged
    ensures Pending(s.rows) !! Stuck(s.rows) !! Dispatched(s.rows) !! s.purged
  {
    ReachedInv(es, s);
    RowsAndPurged(s);
    RowsPartition(s.rows);
  }

  lemma RowsAndPurged(s: Sys)
    requires EventsInv(s)
    ensures s.events.Keys == s.rows.Keys + s.purged && s.rows.Keys !! s.purged
  {
    forall id | id in s.events
      ensures id in s.rows <==> id !in s.purged
    {
      assert EventInv(s, id);
    }
  }

  lemma RowsPartition(rows: map<nat, Row>)
    ensures rows.Keys == Pending(rows) + Stuck(rows) + Dispatched(rows)
    ensures Pending(rows) !! Stuck(rows) !! Dispatched(rows)
  {
  }

  lemma CompletingIsPending(s: Sys, id: nat)
    requires LocksInv(s) && Completing(s, id)
    ensures id in s.rows && s.rows[id].dispatchedAt.None?
  {
    var r :| r in s.txns && id in s.txns[r].completed;
    assert TxnInv(s, s.txns[r]);
    assert id in s.txns[r].writes;
    assert id in s.txns[r].locked;
  }

  /** Duplicates come from aborted transactions only: an event was completely dispatched
      once for each time that was rolled back, plus at most once more. */
  lemma DuplicatesComeFromAborts(es: seq<Event>, s: Sys, id: nat)
    requires Reaches(es, s)
    requires id in s.events
    ensures id in s.completions && id in s.rollbacks
    ensures s.rollbacks[id] <= s.completions[id] <= s.rollbacks[id] + 1
    ensures Gone(s, id) ==> s.completions[id] == s.rollbacks[id] + 1
  {
    ReachedInv(es, s);
    assert EventInv(s, id);
    if Completing(s, id) {
      CompletingIsPending(s, id);
    }
  }

  /** Two relays never hold the same row, and a held row is still waiting. */
  lemma RowsAreHeldOnce(es: seq<Event>, s: Sys, r: nat, q: nat, id: nat)
    requires Reaches(es, s)
    requires r in s.txns && q in s.txns && id in s.txns[r].locked && id in s.txns[q].locked
    ensures r == q
    ensures id in s.rows && Eligible(s.rows[id], s.txns[r].moment)
  {
    ReachedInv(es, s);
    assert TxnInv(s, s.txns[r]);
  }

  /** A broker outage never exhausts a row: its attempts are its committed non-transient
      failures, and there are never more than eight. */
  lemma OnlyPoisonIsCharged(es: seq<Event>, s: Sys, id: nat)
    requires Reaches(es, s)
    requires id in s.rows
    ensures id in s.failures && s.rows[id].attempts == |s.failures[id]| <= MAX_ATTEMPTS
  {
    ReachedInv(es, s);
    assert EventInv(s, id);
  }

  lemma {:induction false} SpacedSum(failures: seq<int>, k: nat)
    requires Spaced(failures) && k < |failures|
    ensures failures[k] - failures[0] >= Pow2(k + 1) - 2
  {
    if k > 0 {
      SpacedSum(failures, k - 1);
    }
  }

  /** Exhausting the budget takes at least 2 + 4 + ... + 128 seconds of relay clock. */
  lemma ExhaustionTakesTime(es: seq<Event>, s: Sys, id: nat)
    requires Reaches(es, s)
    requires id in s.failures && |s.failures[id]| == MAX_ATTEMPTS
    ensures s.failures[id][7] - s.failures[id][0] >= 254
  {
    ReachedInv(es, s);
    assert EventInv(s, id);
    SpacedSum(s.failures[id], 7);
    assert Pow2(4) == 16 && Pow2(8) == 16 * Pow2(4);
  }

  // ---------------------------------------------------------------- what can happen

  lemma {:induction false} RunConcat(s: Sys, es: seq<Event>, fs: seq<Event>)
    requires IsRun(s, es) && IsRun(Final(s, es), fs)
    ensures IsRun(s, es + fs) && Final(s, es + fs) == Final(Final(s, es), fs)
    decreases |es|
  {
    if es == [] {
      assert es + fs == fs;
    } else {
      assert (es + fs)[1..] == es[1..] + fs;
      RunConcat(Step(s, es[0]), es[1..], fs);
    }
  }

  lemma OneStep(s: Sys, e: Event, es: seq<Event>)
    requires Enabled(s, e) && IsRun(Step(s, e), es)
    ensures IsRun(s, [e] + es) && Final(s, [e] + es) == Final(Step(s, e), es)
  {
    assert ([e] + es)[1..] == es;
  }

  /** The relay is part of the way through its batch, and has dispatched all it has passed. */
  ghost predicate Passing(s: Sys, r: nat) {
    && Inv(s) && r in s.txns
    && (forall id :: id in s.txns[r].locked ==> id in s.rows && s.rows[id].routed)
    && (forall id :: id in s.txns[r].locked[..s.txns[r].next] ==> id in s.txns[r].completed)
  }

  /** Only this relay's transaction and what has been sent have moved on. */
  ghost predicate MovesOn(s: Sys, r: nat, s': Sys) {
    && s'.rows == s.rows && r in s.txns && r in s'.txns
    && s'.txns == s.txns[r := s'.txns[r]]
    && s'.txns[r].locked == s.txns[r].locked && s'.txns[r].moment == s.txns[r].moment
  }

  lemma MovesTwice(a: Sys, b: Sys, r: nat, c: Sys)
    requires MovesOn(a, r, b) && MovesOn(b, r, c)
    ensures MovesOn(a, r, c)
  {
  }

  lemma CurrentIsHeld(s: Sys, r: nat)
    requires Passing(s, r) && Busy(s, r)
    ensures var id := Current(s.txns[r]);
      id in s.rows && s.rows[id].routed && s.txns[r].reached <= |s.rows[id].targets|
  {
    var t := s.txns[r];
    assert TxnInv(s, t) && Current(t) in t.locked;
    assert EventInv(s, Current(t));
  }

  lemma SendPasses(s: Sys, r: nat)
    requires Passing(s, r) && Enabled(s, Send(r))
    ensures Passing(Step(s, Send(r)), r) && MovesOn(s, r, Step(s, Send(r)))
  {
    StepKeepsInv(s, Send(r));
  }

  lemma {:induction false} SendsOne(s: Sys, r: nat) returns (es: seq<Event>)
    requires Passing(s, r) && Busy(s, r)
    ensures IsRun(s, es) && Passing(Final(s, es), r) && MovesOn(s, r, Final(s, es))
    ensures Final(s, es).txns[r].next == s.txns[r].next + 1
    decreases if Current(s.txns[r]) in s.rows then |s.rows[Current(s.txns[r])].targets| - s.txns[r].reached else 0
  {
    CurrentIsHeld(s, r);
    if s.txns[r].reached < |s.rows[Current(s.txns[r])].targets| {
      SendPasses(s, r);
      var rest := SendsOne(Step(s, Send(r)), r);
      OneStep(s, Send(r), rest);
      MovesTwice(s, Step(s, Send(r)), r, Final(Step(s, Send(r)), rest));
      es := [Send(r)] + rest;
    } else {
      StepKeepsInv(s, Finish(r));
      FinishPasses(s, r);
      OneStep(s, Finish(r), []);
      es := [Finish(r)] + [];
    }
  }

  lemma FinishPasses(s: Sys, r: nat)
    requires Passing(s, r) && Enabled(s, Finish(r)) && Inv(Step(s, Finish(r)))
    ensures Passing(Step(s, Finish(r)), r) && MovesOn(s, r, Step(s, Finish(r)))
  {
    FinishMoves(s, r);
    FinishCompletes(s.txns[r], Step(s, Finish(r)).txns[r]);
  }

  lemma FinishMoves(s: Sys, r: nat)
    requires Enabled(s, Finish(r))
    ensures MovesOn(s, r, Step(s, Finish(r)))
    ensures var t, t' := s.txns[r], Step(s, Finish(r)).txns[r];
      t'.next == t.next + 1 && t'.completed == t.completed + {Current(t)}
  {
  }

  lemma FinishCompletes(t: Txn, t': Txn)
    requires t.next < |t.locked| && t'.locked == t.locked && t'.next == t.next + 1
    requires t'.completed == t.completed + {Current(t)}
    requires forall id :: id in t.locked[..t.next] ==> id in t.completed
    ensures forall id :: id in t'.locked[..t'.next] ==> id in t'.completed
  {
    assert t'.locked[..t'.next] == t.locked[..t.next] + [Current(t)];
  }

  lemma {:induction false} SendsAll(s: Sys, r: nat) returns (es: seq<Event>)
    requires Passing(s, r)
    ensures IsRun(s, es) && Passing(Final(s, es), r) && MovesOn(s, r, Final(s, es))
    ensures Final(s, es).txns[r].next == |s.txns[r].locked|
    decreases |s.txns[r].locked| - s.txns[r].next
  {
    NextIsWithin(s, r);
    if s.txns[r].next < |s.txns[r].locked| {
      var first := SendsOne(s, r);
      var rest := SendsAll(Final(s, first), r);
      RunConcat(s, first, rest);
      MovesTwice(s, Final(s, first), r, Final(Final(s, first), rest));
      es := first + rest;
    } else {
      es := [];
    }
  }

  lemma NextIsWithin(s: Sys, r: nat)
    requires Inv(s) && r in s.txns
    ensures s.txns[r].next <= |s.txns[r].locked|
  {
    assert TxnInv(s, s.txns[r]);
  }

  lemma CommitMarks(s: Sys, r: nat)
    requires Passing(s, r) && s.txns[r].next == |s.txns[r].locked|
    ensures Enabled(s, Commit(r))
    ensures var t, s' := s.txns[r], Step(s, Commit(r));
      && (forall id :: id in t.locked ==> id in s'.rows && s'.rows[id] == Marked(s.rows[id], t.moment))
      && (forall id :: id in s.rows && id !in t.locked ==> id in s'.rows && s'.rows[id] == s.rows[id])
  {
    var t := s.txns[r];
    assert TxnInv(s, t);
    assert t.locked[..t.next] == t.locked;
    forall id | id in t.locked ensures id in t.writes && t.writes[id] == Marked(s.rows[id], t.moment) {
      assert id in AsSet(t.locked);
      assert WriteInv(s, t, id);
    }
  }

  /** In every reached state a relay without a transaction can take any selection of routed rows
      all the way, whatever the other relays hold: it begins, sends, commits, and the rows are
      marked with its moment and all others as they were. */
  lemma DrainCanFinish(es: seq<Event>, s: Sys, r: nat, moment: int, batch: nat, ids: seq<nat>)
    returns (more: seq<Event>)
    requires Reaches(es, s) && r !in s.txns && IsSelection(s.rows, LockedIds(s), moment, batch, ids)
    requires forall id :: id in ids ==> id in s.rows && s.rows[id].routed
    ensures IsRun(s, more)
    ensures var s' := Final(s, more);
      && r !in s'.txns
      && (forall id :: id in ids ==> id in s'.rows && s'.rows[id] == s.rows[id].(dispatchedAt := Some(moment)))
      && (forall id :: id in s.rows && id !in ids ==> id in s'.rows && s'.rows[id] == s.rows[id])
  {
    var e := Begin(r, moment, batch, ids);
    ReachedInv(es, s);
    StepKeepsInv(s, e);
    var begun := Step(s, e);
    var rest := SendsAll(begun, r);
    var done := Final(begun, rest);
    CommitMarks(done, r);
    OneStep(done, Commit(r), []);
    assert [Commit(r)] + [] == [Commit(r)];
    RunConcat(begun, rest, [Commit(r)]);
    OneStep(s, e, rest + [Commit(r)]);
    more := [e] + (rest + [Commit(r)]);
  }
}
