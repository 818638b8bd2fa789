/** Store-and-replay under an Idempotency-Key, with any number of requests in concurrent
    transactions against the unique index on (scope, key, user). Bodies are represented by
    their digests, and an empty response body, which is falsy to a handler, by "". */
module Idempotency {
  import opened Wrappers

  datatype Key = Key(scope: string, key: string, user: nat)

  datatype Row = Row(digest: string, response: string)

  datatype Error = KeyReused

  /** `replay` against the committed rows. */
  function Lookup(rows: map<Key, Row>, k: Key, digest: string): Result<Option<string>, Error> {
    if k !in rows then Ok(None)
    else if rows[k].digest != digest then Err(KeyReused)
    else Ok(Some(rows[k].response))
  }

  /** One request's handle; no header means no key. */
  class Handle {
    const key: Option<string>
    const user: nat
    var scope: string

    constructor (key: Option<string>, user: nat)
      ensures this.key == key && this.user == user && scope == ""
    {
      this.key, this.user, scope := key, user, "";
    }

    predicate Keyed() {
      key.Some? && key.value != ""
    }

    method Replay(rows: map<Key, Row>, scope: string, digest: string) returns (r: Result<Option<string>, Error>)
      modifies this
      ensures key.None? || key.value == "" ==> r == Ok(None) && this.scope == old(this.scope)
      ensures key.Some? && key.value != "" ==>
                && this.scope == scope
                && var k := Key(scope, key.value, user);
                   r == if k !in rows then Ok(None)
                        else if rows[k].digest == digest then Ok(Some(rows[k].response)) else Err(KeyReused)
    {
      if !Keyed() {
        return Ok(None);
      }
      this.scope := scope;
      var k := Key(scope, key.value, user);
      if k !in rows {
        return Ok(None);
      }
      if rows[k].digest != digest {
        return Err(KeyReused);
      }
      return Ok(Some(rows[k].response));
    }

    /** The insert of a successful handler, under the scope it replayed with. */
    method Store(digest: string, response: string) returns (insert: Option<(Key, Row)>)
      ensures key.None? || key.value == "" ==> insert == None
      ensures key.Some? && key.value != "" ==>
                insert == Some((Key(scope, key.value, user), Row(digest, response)))
    {
      if !Keyed() {
        return None;
      }
      return Some((Key(scope, key.value, user), Row(digest, response)));
    }
  }

  // ---------------------------------------------------------------- concurrent requests

  datatype Id = Id(user: nat, n: nat)

  datatype Phase = Opened | Executing | Executed(response: string) | Stored(response: string)

  datatype Txn = Txn(key: Option<Key>, digest: string, phase: Phase)

  /** What the caller is told. */
  datatype Outcome = Replied(response: string, replayed: bool) | Conflict | Failed

  /** `rows` is committed. Since the last sweep of a key, `committed` holds the executions
      that committed under it and `replies` every successful (digest, response). */
  datatype Sys = Sys(rows: map<Key, Row>, txns: map<Id, Txn>, outcomes: map<Id, Outcome>,
                     committed: map<Key, seq<Row>>, replies: map<Key, seq<Row>>)

  datatype Event =
    | Request(id: Id, scope: string, header: Option<string>, digest: string)
    | Replay(id: Id)
    | Execute(id: Id, result: string)
    | Store(id: Id)
    | Commit(id: Id)
    | Abort(id: Id)
    | Sweep(swept: Key)

  const Start: Sys := Sys(map[], map[], map[], map[], map[])

  function Log(m: map<Key, seq<Row>>, k: Key): seq<Row> {
    if k in m then m[k] else []
  }

  function KeyOf(id: Id, scope: string, header: Option<string>): Option<Key> {
    if header.Some? && header.value != "" then Some(Key(scope, header.value, id.user)) else None
  }

  /** Two requests come under one key exactly when both carry one, it is the same, and so are the
      scope and the user. */
  lemma KeysAreApart(a: Id, scope: string, header: Option<string>, b: Id, other: string, given: Option<string>)
    ensures KeyOf(a, scope, header).Some? <==> header.Some? && header.value != ""
    ensures KeyOf(a, scope, header).Some? ==>
              (KeyOf(a, scope, header) == KeyOf(b, other, given) <==>
                 header == given && scope == other && a.user == b.user)
  {
  }

  /** Another open transaction has inserted this key; an insert waits for it to end. */
  predicate Waits(s: Sys, id: Id, k: Key) {
    exists other :: other in s.txns && other != id && s.txns[other].phase.Stored? && s.txns[other].key == Some(k)
  }

  predicate Enabled(s: Sys, e: Event) {
    match e
    case Request(id, _, _, _) => id !in s.txns && id !in s.outcomes
    case Replay(id) => id in s.txns && s.txns[id].phase.Opened?
    case Execute(id, _) => id in s.txns && s.txns[id].phase.Executing?
    case Store(id) =>
      && id in s.txns && s.txns[id].phase.Executed?
      && (s.txns[id].key.Some? ==> !Waits(s, id, s.txns[id].key.value))
    case Commit(id) => id in s.txns && s.txns[id].phase.Stored?
    case Abort(id) => id in s.txns
    case Sweep(_) => true
  }

  function Advance(s: Sys, id: Id, phase: Phase): Sys
    requires id in s.txns
  {
    s.(txns := s.txns[id := s.txns[id].(phase := phase)])
  }

  function End(s: Sys, id: Id, outcome: Outcome): Sys {
    s.(txns := s.txns - {id}, outcomes := s.outcomes[id := outcome])
  }

  /** The caller is answered with `row`'s response. */
  function Succeed(s: Sys, id: Id, key: Option<Key>, row: Row, replayed: bool): Sys {
    var s1 := End(s, id, Replied(row.response, replayed));
    if key.None? then s1
    else s1.(replies := s.replies[key.value := Log(s.replies, key.value) + [row]])
  }

  function Step(s: Sys, e: Event): Sys
    requires Enabled(s, e)
  {
    match e
    case Request(id, scope, header, digest) =>
      s.(txns := s.txns[id := Txn(KeyOf(id, scope, header), digest, Opened)])
    case Replay(id) =>
      var t := s.txns[id];
      if t.key.None? then Advance(s, id, Executing)
      else
        (match Lookup(s.rows, t.key.value, t.digest)
         case Err(_) => End(s, id, Conflict)
         case Ok(None) => Advance(s, id, Executing)
         case Ok(Some(response)) =>
           if response == "" then Advance(s, id, Executing)
           else Succeed(s, id, t.key, Row(t.digest, response), true))
    case Execute(id, result) => Advance(s, id, Executed(result))
    case Store(id) =>
      var t := s.txns[id];
      if t.key.Some? && t.key.value in s.rows then End(s, id, Failed)
      else Advance(s, id, Stored(t.phase.response))
    case Commit(id) =>
      var t := s.txns[id];
      var row := Row(t.digest, t.phase.response);
      var s1 := Succeed(s, id, t.key, row, false);
      if t.key.None? then s1
      else
        var k := t.key.value;
        s1.(rows := s.rows[k := row], committed := s.committed[k := Log(s.committed, k) + [row]])
    case Abort(id) => End(s, id, Failed)
    case Sweep(k) => s.(rows := s.rows - {k}, committed := s.committed - {k}, replies := s.replies - {k})
  }

  predicate IsRun(s: Sys, es: seq<Event>)
    decreases |es|
  {
    es == [] || (Enabled(s, es[0]) && IsRun(Step(s, es[0]), es[1..]))
  }

  function Final(s: Sys, es: seq<Event>): Sys
    requires IsRun(s, es)
    decreases |es|
  {
    if es == [] then s else Final(Step(s, es[0]), es[1..])
  }

  ghost predicate Reaches(es: seq<Event>, s: Sys) {
    IsRun(Start, es) && Final(Start, es) == s
  }

  // ---------------------------------------------------------------- the invariant

  ghost predicate KeyInv(s: Sys, k: Key) {
    && Log(s.committed, k) == (if k in s.rows then [s.rows[k]] else [])
    && (forall row :: row in Log(s.replies, k) ==> k in s.rows && row == s.rows[k])
  }

  /** The transaction has inserted its key and not yet ended. */
  predicate Holds(s: Sys, id: Id) {
    id in s.txns && s.txns[id].phase.Stored? && s.txns[id].key.Some?
  }

  ghost predicate TxnsInv(s: Sys) {
    && (forall id :: Holds(s, id) ==> s.txns[id].key.value !in s.rows)
    && (forall id, other :: Holds(s, id) && Holds(s, other) && s.txns[id].key == s.txns[other].key ==> id == other)
  }

  ghost predicate Inv(s: Sys) {
    (forall k :: KeyInv(s, k)) && TxnsInv(s)
  }

  /** A success under `k` logs the row that `k` is left with. */
  lemma SuccessKeepsKey(s: Sys, s': Sys, k: Key, row: Row)
    requires KeyInv(s, k)
    requires Log(s'.replies, k) == Log(s.replies, k) + [row]
    requires k in s'.rows && s'.rows[k] == row && (k in s.rows ==> s.rows[k] == row)
    requires Log(s'.committed, k) == if k in s.rows then Log(s.committed, k) else Log(s.committed, k) + [row]
    ensures KeyInv(s', k)
  {
  }

  predicate Succeeds(s: Sys, e: Event, k: Key)
    requires Enabled(s, e)
  {
    || (e.Commit? && s.txns[e.id].key == Some(k))
    || (e.Replay? && s.txns[e.id].key == Some(k)
        && k in s.rows && s.txns[e.id].digest == s.rows[k].digest && s.rows[k].response != "")
  }

  lemma OtherStepsKeepReplies(s: Sys, e: Event, k: Key)
    requires Enabled(s, e) && !Succeeds(s, e, k) && e != Sweep(k)
    ensures Log(Step(s, e).replies, k) == Log(s.replies, k)
  {
  }

  lemma KeysStep(s: Sys, e: Event, k: Key)
    requires Inv(s) && Enabled(s, e)
    ensures KeyInv(Step(s, e), k)
  {
    assert KeyInv(s, k);
    if e == Sweep(k) {
    } else if !Succeeds(s, e, k) {
      OtherStepsKeepReplies(s, e, k);
    } else if e.Replay? {
      SuccessKeepsKey(s, Step(s, e), k, s.rows[k]);
    } else {
      assert Holds(s, e.id);
      SuccessKeepsKey(s, Step(s, e), k, Row(s.txns[e.id].digest, s.txns[e.id].phase.response));
    }
  }

  /** A transaction that holds a key held it before, or has just inserted it. */
  lemma HoldingBegins(s: Sys, e: Event, id: Id)
    requires Enabled(s, e) && Holds(Step(s, e), id)
    ensures id in s.txns && Step(s, e).txns[id].key == s.txns[id].key
    ensures Holds(s, id) || (e == Store(id) && !Waits(s, id, s.txns[id].key.value) && s.txns[id].key.value !in s.rows)
  {
  }

  lemma RowsBegin(s: Sys, e: Event, k: Key)
    requires Enabled(s, e) && k in Step(s, e).rows
    ensures k in s.rows || (e.Commit? && Holds(s, e.id) && s.txns[e.id].key == Some(k))
  {
  }

  lemma TxnsStep(s: Sys, e: Event)
    requires TxnsInv(s) && Enabled(s, e)
    ensures TxnsInv(Step(s, e))
  {
    var s' := Step(s, e);
    forall id | Holds(s', id)
      ensures s'.txns[id].key.value !in s'.rows
    {
      HoldingBegins(s, e, id);
      if s'.txns[id].key.value in s'.rows {
        RowsBegin(s, e, s'.txns[id].key.value);
      }
    }
    forall id, other | Holds(s', id) && Holds(s', other) && s'.txns[id].key == s'.txns[other].key
      ensures id == other
    {
      HoldingBegins(s, e, id);
      HoldingBegins(s, e, other);
    }
  }

  lemma {:induction false} RunKeepsInv(s: Sys, es: seq<Event>)
    requires Inv(s) && IsRun(s, es)
    ensures Inv(Final(s, es))
    decreases |es|
  {
    if es != [] {
      forall k
        ensures KeyInv(Step(s, es[0]), k)
      {
        KeysStep(s, es[0], k);
      }
      TxnsStep(s, es[0]);
      RunKeepsInv(Step(s, es[0]), es[1..]);
    }
  }

  /** Between two sweeps of a key at most one execution under it commits, and whoever is
      answered successfully, by that execution or by a replay, sent its body and is given
      its response. */
  lemma OneExecutionPerKey(es: seq<Event>, s: Sys, k: Key)
    requires Reaches(es, s)
    ensures |Log(s.committed, k)| <= 1
    ensures forall row :: row in Log(s.replies, k) ==> Log(s.committed, k) == [row]
  {
    RunKeepsInv(Start, es);
    assert KeyInv(s, k);
  }

  /** Where a request with this digest under `k` can stand once `row` is committed: it has not
      looked its key up, or it executes because the stored response is empty, or it is done: a
      conflict for another body, for the same one the committed response. */
  predicate Settles(s: Sys, id: Id, k: Key, digest: string, row: Row) {
    if id in s.txns then
      && s.txns[id].key == Some(k) && s.txns[id].digest == digest
      && (s.txns[id].phase.Opened?
          || (!s.txns[id].phase.Stored? && row.digest == digest && row.response == ""))
    else
      id in s.outcomes &&
      match s.outcomes[id]
      case Conflict => row.digest != digest
      case Replied(response, replayed) => replayed && row == Row(digest, response) && response != ""
      case Failed => true
  }

  lemma RowStays(s: Sys, e: Event, k: Key)
    requires TxnsInv(s) && Enabled(s, e) && e != Sweep(k) && k in s.rows
    ensures k in Step(s, e).rows && Step(s, e).rows[k] == s.rows[k]
  {
    if e.Commit? {
      assert Holds(s, e.id) || s.txns[e.id].key.None?;
    }
  }

  lemma StepSettles(s: Sys, e: Event, id: Id, k: Key, digest: string)
    requires Enabled(s, e) && k in s.rows && Settles(s, id, k, digest, s.rows[k])
    ensures Settles(Step(s, e), id, k, digest, s.rows[k])
  {
    if !e.Sweep? && e.id != id {
      OtherOutcomesKeep(s, e, id);
    }
  }

  lemma {:induction false} RunSettles(s: Sys, es: seq<Event>, id: Id, k: Key, digest: string)
    requires TxnsInv(s) && IsRun(s, es) && Sweep(k) !in es
    requires k in s.rows && Settles(s, id, k, digest, s.rows[k])
    ensures Settles(Final(s, es), id, k, digest, s.rows[k])
    decreases |es|
  {
    if es != [] {
      RowStays(s, es[0], k);
      StepSettles(s, es[0], id, k, digest);
      TxnsStep(s, es[0]);
      RunSettles(Step(s, es[0]), es[1..], id, k, digest);
    }
  }

  /** A request that looks its key up after a commit is told apart by its body, however the run
      goes on: a different body conflicts, and the same one is given the committed response. */
  lemma LookupAfterCommit(before: seq<Event>, s: Sys, es: seq<Event>, id: Id, k: Key)
    requires Reaches(before, s) && IsRun(s, es) && Sweep(k) !in es
    requires id in s.txns && s.txns[id].phase.Opened? && s.txns[id].key == Some(k) && k in s.rows
    ensures Settles(Final(s, es), id, k, s.txns[id].digest, s.rows[k])
  {
    RunKeepsInv(Start, before);
    RunSettles(s, es, id, k, s.txns[id].digest);
  }

  /** The request is executing under `k`, or has failed. */
  predicate TooLate(s: Sys, id: Id, k: Key) {
    if id in s.txns then s.txns[id].key == Some(k) && (s.txns[id].phase.Executing? || s.txns[id].phase.Executed?)
    else id in s.outcomes && s.outcomes[id] == Failed
  }

  lemma OtherOutcomesKeep(s: Sys, e: Event, id: Id)
    requires Enabled(s, e) && !e.Sweep? && e.id != id
    ensures id in s.outcomes ==> id in Step(s, e).outcomes && Step(s, e).outcomes[id] == s.outcomes[id]
  {
  }

  lemma OwnStepStaysTooLate(s: Sys, e: Event, id: Id, k: Key)
    requires Enabled(s, e) && !e.Sweep? && e.id == id && k in s.rows && TooLate(s, id, k)
    ensures TooLate(Step(s, e), id, k)
  {
  }

  lemma {:induction false} StaysTooLate(s: Sys, es: seq<Event>, id: Id, k: Key)
    requires IsRun(s, es) && Sweep(k) !in es
    requires k in s.rows && TooLate(s, id, k)
    ensures TooLate(Final(s, es), id, k)
    decreases |es|
  {
    if es != [] {
      if !es[0].Sweep? && es[0].id == id {
        OwnStepStaysTooLate(s, es[0], id, k);
      } else if !es[0].Sweep? {
        OtherOutcomesKeep(s, es[0], id);
      }
      StaysTooLate(Step(s, es[0]), es[1..], id, k);
    }
  }

  /** A request that executes although its key has been committed — it looked too early,
      or the stored response was empty — cannot succeed while that row is there: once it has ended,
      it has failed. */
  lemma LateExecutionFails(s: Sys, es: seq<Event>, id: Id, k: Key)
    requires IsRun(s, es) && Sweep(k) !in es && k in s.rows
    requires id in s.txns && s.txns[id].key == Some(k) && (s.txns[id].phase.Executing? || s.txns[id].phase.Executed?)
    ensures var s' := Final(s, es);
      if id in s'.txns then s'.txns[id].phase.Executing? || s'.txns[id].phase.Executed?
      else id in s'.outcomes && s'.outcomes[id] == Failed
  {
    StaysTooLate(s, es, id, k);
  }

  // ---------------------------------------------------------------- what can happen

  lemma ReachesOn(es: seq<Event>, s: Sys, e: Event)
    requires Reaches(es, s) && Enabled(s, e)
    ensures Reaches(es + [e], Step(s, e))
  {
    RunSnoc(Start, es, e);
  }

  lemma {:induction false} RunSnoc(s: Sys, es: seq<Event>, e: Event)
    requires IsRun(s, es) && Enabled(Final(s, es), e)
    ensures IsRun(s, es + [e]) && Final(s, es + [e]) == Step(Final(s, es), e)
    decreases |es|
  {
    if es == [] {
      assert es + [e] == [e] && [e][1..] == [];
    } else {
      assert (es + [e])[1..] == es[1..] + [e];
      RunSnoc(Step(s, es[0]), es[1..], e);
    }
  }

  /** In every reached state a new request under a key that has no row, and that nobody has inserted,
      can go all the way: it executes, its response is stored, and it is answered with it. */
  lemma FirstExecutes(es: seq<Event>, s: Sys, id: Id, scope: string, key: string, digest: string, result: string)
    returns (more: seq<Event>, s': Sys)
    requires Reaches(es, s) && id !in s.txns && id !in s.outcomes && key != ""
    requires var k := Key(scope, key, id.user); k !in s.rows && !Waits(s, id, k)
    ensures Reaches(more, s')
    ensures s'.outcomes == s.outcomes[id := Replied(result, false)]
    ensures s'.rows == s.rows[Key(scope, key, id.user) := Row(digest, result)] && s'.txns == s.txns
  {
    var k := Key(scope, key, id.user);
    var s1 := Step(s, Request(id, scope, Some(key), digest));
    ReachesOn(es, s, Request(id, scope, Some(key), digest));
    var s2 := Step(s1, Replay(id));
    ReachesOn(es + [Request(id, scope, Some(key), digest)], s1, Replay(id));
    var es2 := es + [Request(id, scope, Some(key), digest)] + [Replay(id)];
    var s3 := Step(s2, Execute(id, result));
    ReachesOn(es2, s2, Execute(id, result));
    assert !Waits(s3, id, k) by {
      assert forall other :: other in s3.txns && other != id ==> other in s.txns && s3.txns[other] == s.txns[other];
    }
    var s4 := Step(s3, Store(id));
    ReachesOn(es2 + [Execute(id, result)], s3, Store(id));
    more, s' := es2 + [Execute(id, result)] + [Store(id)] + [Commit(id)], Step(s4, Commit(id));
    ReachesOn(es2 + [Execute(id, result)] + [Store(id)], s4, Commit(id));
    assert s'.txns == s.txns;
  }

  /** And a new request under a key that has a row is answered at once: with the stored response for
      the same body, with a conflict for another. */
  lemma AgainIsAnswered(es: seq<Event>, s: Sys, id: Id, scope: string, key: string, digest: string)
    returns (more: seq<Event>, s': Sys)
    requires Reaches(es, s) && id !in s.txns && id !in s.outcomes && key != ""
    requires var k := Key(scope, key, id.user); k in s.rows && s.rows[k].response != ""
    ensures Reaches(more, s') && s'.rows == s.rows
    ensures var row := s.rows[Key(scope, key, id.user)];
      s'.outcomes == s.outcomes[id := if row.digest == digest then Replied(row.response, true) else Conflict]
  {
    var s1 := Step(s, Request(id, scope, Some(key), digest));
    ReachesOn(es, s, Request(id, scope, Some(key), digest));
    more, s' := es + [Request(id, scope, Some(key), digest)] + [Replay(id)], Step(s1, Replay(id));
    ReachesOn(es + [Request(id, scope, Some(key), digest)], s1, Replay(id));
  }

  // ---------------------------------------------------------------- one user says nothing about another

  function UserOf(e: Event): nat {
    if e.Sweep? then e.swept.user else e.id.user
  }

  /** The run with every other user's events deleted. */
  function Mine(es: seq<Event>, user: nat): seq<Event> {
    if es == [] then []
    else (if UserOf(es[0]) == user then [es[0]] else []) + Mine(es[1..], user)
  }

  function OfKeys<V>(m: map<Key, V>, user: nat): map<Key, V> {
    map k | k in m && k.user == user :: m[k]
  }

  function OfIds<V>(m: map<Id, V>, user: nat): map<Id, V> {
    map id | id in m && id.user == user :: m[id]
  }

  /** What the state holds about one user. */
  function Share(s: Sys, user: nat): Sys {
    Sys(OfKeys(s.rows, user), OfIds(s.txns, user), OfIds(s.outcomes, user),
        OfKeys(s.committed, user), OfKeys(s.replies, user))
  }

  ghost predicate OwnKeys(s: Sys) {
    forall id :: id in s.txns && s.txns[id].key.Some? ==> s.txns[id].key.value.user == id.user
  }

  lemma KeyUpdate<V>(m: map<Key, V>, k: Key, v: V, user: nat)
    ensures OfKeys(m[k := v], user) == if k.user == user then OfKeys(m, user)[k := v] else OfKeys(m, user)
    ensures OfKeys(m - {k}, user) == if k.user == user then OfKeys(m, user) - {k} else OfKeys(m, user)
  {
  }

  lemma IdUpdate<V>(m: map<Id, V>, id: Id, v: V, user: nat)
    ensures OfIds(m[id := v], user) == if id.user == user then OfIds(m, user)[id := v] else OfIds(m, user)
    ensures OfIds(m - {id}, user) == if id.user == user then OfIds(m, user) - {id} else OfIds(m, user)
  {
  }

  lemma AdvanceShare(s: Sys, id: Id, phase: Phase, user: nat)
    requires id in s.txns
    ensures Share(Advance(s, id, phase), user)
         == if id.user == user then Advance(Share(s, user), id, phase) else Share(s, user)
  {
    IdUpdate(s.txns, id, s.txns[id].(phase := phase), user);
  }

  lemma EndShare(s: Sys, id: Id, outcome: Outcome, user: nat)
    requires id in s.txns
    ensures Share(End(s, id, outcome), user)
         == if id.user == user then End(Share(s, user), id, outcome) else Share(s, user)
  {
    IdUpdate(s.txns, id, s.txns[id], user);
    IdUpdate(s.outcomes, id, outcome, user);
  }

  lemma SucceedShare(s: Sys, id: Id, key: Option<Key>, row: Row, replayed: bool, user: nat)
    requires id in s.txns && (key.Some? ==> key.value.user == id.user)
    ensures Share(Succeed(s, id, key, row, replayed), user)
         == if id.user == user then Succeed(Share(s, user), id, key, row, replayed) else Share(s, user)
  {
    EndShare(s, id, Replied(row.response, replayed), user);
    if key.Some? {
      KeyUpdate(s.replies, key.value, Log(s.replies, key.value) + [row], user);
    }
  }

  lemma CommitShare(s: Sys, id: Id, user: nat)
    requires OwnKeys(s) && Enabled(s, Commit(id))
    ensures id.user == user ==> Enabled(Share(s, user), Commit(id))
    ensures Share(Step(s, Commit(id)), user)
         == if id.user == user then Step(Share(s, user), Commit(id)) else Share(s, user)
  {
    var t := s.txns[id];
    var row := Row(t.digest, t.phase.response);
    SucceedShare(s, id, t.key, row, false, user);
    if t.key.Some? {
      KeyUpdate(s.rows, t.key.value, row, user);
      KeyUpdate(s.committed, t.key.value, Log(s.committed, t.key.value) + [row], user);
    }
  }

  lemma ReplayShare(s: Sys, id: Id, user: nat)
    requires OwnKeys(s) && Enabled(s, Replay(id))
    ensures id.user == user ==> Enabled(Share(s, user), Replay(id))
    ensures Share(Step(s, Replay(id)), user)
         == if id.user == user then Step(Share(s, user), Replay(id)) else Share(s, user)
  {
    var t := s.txns[id];
    AdvanceShare(s, id, Executing, user);
    EndShare(s, id, Conflict, user);
    assert id.user == user && t.key.Some? ==>
      Lookup(OfKeys(s.rows, user), t.key.value, t.digest) == Lookup(s.rows, t.key.value, t.digest);
    if t.key.Some? && t.key.value in s.rows {
      SucceedShare(s, id, t.key, Row(t.digest, s.rows[t.key.value].response), true, user);
    }
  }

  lemma StoreShare(s: Sys, id: Id, user: nat)
    requires OwnKeys(s) && Enabled(s, Store(id))
    ensures id.user == user ==> Enabled(Share(s, user), Store(id))
    ensures Share(Step(s, Store(id)), user)
         == if id.user == user then Step(Share(s, user), Store(id)) else Share(s, user)
  {
    AdvanceShare(s, id, Stored(s.txns[id].phase.response), user);
    EndShare(s, id, Failed, user);
  }

  lemma StepShare(s: Sys, e: Event, user: nat)
    requires OwnKeys(s) && Enabled(s, e)
    ensures UserOf(e) == user ==> Enabled(Share(s, user), e)
    ensures Share(Step(s, e), user) == if UserOf(e) == user then Step(Share(s, user), e) else Share(s, user)
  {
    match e
    case Request(id, scope, header, digest) =>
      IdUpdate(s.txns, id, Txn(KeyOf(id, scope, header), digest, Opened), user);
    case Replay(id) => ReplayShare(s, id, user);
    case Execute(id, result) => AdvanceShare(s, id, Executed(result), user);
    case Store(id) => StoreShare(s, id, user);
    case Commit(id) => CommitShare(s, id, user);
    case Abort(id) => EndShare(s, id, Failed, user);
    case Sweep(k) =>
      KeyUpdate(s.rows, k, Row("", ""), user);
      KeyUpdate(s.committed, k, [], user);
      KeyUpdate(s.replies, k, [], user);
  }

  /** Deleting every other user's requests from a run leaves a run, and changes neither
      what this user was told nor what is stored for them. */
  lemma {:induction false} OthersChangeNothing(s: Sys, es: seq<Event>, user: nat)
    requires OwnKeys(s) && IsRun(s, es)
    ensures IsRun(Share(s, user), Mine(es, user))
    ensures Final(Share(s, user), Mine(es, user)) == Share(Final(s, es), user)
    decreases |es|
  {
    if es != [] {
      var e, rest := es[0], es[1..];
      OthersChangeNothing(Step(s, e), rest, user);
      StepShare(s, e, user);
      if UserOf(e) == user {
        assert ([e] + Mine(rest, user))[1..] == Mine(rest, user);
      } else {
        assert [] + Mine(rest, user) == Mine(rest, user);
      }
    }
  }
}
