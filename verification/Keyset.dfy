/** Walks over a listing ordered by id, while rows come and go between its pages. */
module Keyset {
  import opened Wrappers
  import opened Texts
  import opened Paging

  // ---------------------------------------------------------------- ids in order

  lemma {:induction false} LeastExists(ids: set<int>)
    requires ids != {}
    ensures exists m :: m in ids && forall i :: i in ids ==> m <= i
  {
    if forall x :: x !in ids {
      assert false;
    }
    var x :| x in ids;
    var rest := ids - {x};
    if rest == {} {
      forall i | i in ids ensures x <= i {
        assert i == x || i in rest;
      }
    } else {
      LeastExists(rest);
      var m :| m in rest && forall i :: i in rest ==> m <= i;
      var least := if x < m then x else m;
      forall i | i in ids ensures least <= i {
        assert i == x || i in rest;
      }
    }
  }

  ghost function Least(ids: set<int>): (m: int)
    requires ids != {}
    ensures m in ids && forall i :: i in ids ==> m <= i
  {
    LeastExists(ids);
    var m :| m in ids && forall i :: i in ids ==> m <= i;
    m
  }

  /** ORDER BY id. */
  ghost function Ascending(ids: set<int>): seq<int> {
    if ids == {} then [] else [Least(ids)] + Ascending(ids - {Least(ids)})
  }

  predicate Increasing(xs: seq<int>) {
    forall i, j :: 0 <= i < j < |xs| ==> xs[i] < xs[j]
  }

  lemma Chained(xs: seq<int>, ys: seq<int>)
    requires Increasing(xs) && Increasing(ys) && (xs != [] ==> forall y :: y in ys ==> y > xs[|xs| - 1])
    ensures Increasing(xs + ys)
  {
    forall i, j | 0 <= i < j < |xs + ys| ensures (xs + ys)[i] < (xs + ys)[j] {
      if i < |xs| <= j {
        assert ys[j - |xs|] in ys;
      }
    }
  }

  lemma {:induction false} AscendingSorts(ids: set<int>)
    ensures Increasing(Ascending(ids)) && |Ascending(ids)| == |ids|
    ensures forall i :: i in Ascending(ids) <==> i in ids
  {
    if ids != {} {
      AscendingSorts(ids - {Least(ids)});
      Chained([Least(ids)], Ascending(ids - {Least(ids)}));
    }
  }

  ghost function Above(ids: set<int>, x: int): set<int> {
    set i | i in ids && i > x
  }

  /** The ids above the k-th are those that come after it. */
  lemma {:induction false} AscendingAbove(ids: set<int>, k: nat)
    requires 1 <= k <= |Ascending(ids)|
    ensures Ascending(Above(ids, Ascending(ids)[k - 1])) == Ascending(ids)[k..]
  {
    var least, rest := Least(ids), ids - {Least(ids)};
    var xs := Ascending(rest);
    assert Ascending(ids) == [least] + xs;
    if k == 1 {
      assert Above(ids, least) == rest;
    } else {
      AscendingAbove(rest, k - 1);
      AscendingSorts(rest);
      AboveRest(ids, xs, k - 2);
      assert ([least] + xs)[k..] == xs[k - 1..];
    }
  }

  lemma AboveRest(ids: set<int>, xs: seq<int>, j: nat)
    requires ids != {} && j < |xs| && forall i :: i in xs <==> i in ids - {Least(ids)}
    ensures Above(ids, xs[j]) == Above(ids - {Least(ids)}, xs[j])
  {
    assert xs[j] in xs;
  }

  // ---------------------------------------------------------------- one page

  /** The rows strictly past a position. */
  ghost function Past(ids: set<int>, after: Option<int>): set<int> {
    if after.None? then ids else Above(ids, after.value)
  }

  ghost function First(xs: seq<int>, n: nat): seq<int> {
    if |xs| <= n then xs else xs[..n]
  }

  /** `page`: one row more than asked for tells whether there is another page. */
  ghost function Page(rows: seq<int>, limit: nat): (seq<int>, Option<string>)
    requires limit >= 1
  {
    if |rows| <= limit then (rows, None)
    else (rows[..limit], Some(EncodeCursor(IntText(rows[limit - 1]))))
  }

  /** `_rows`. */
  ghost function Rows(ids: set<int>, limit: nat, cursor: Option<string>): (seq<int>, Option<string>)
    requires limit >= 1
  {
    Page(First(Ascending(Past(ids, DecodeId(cursor))), limit + 1), limit)
  }

  /** The page after a position, and the position after the page when more rows follow. */
  ghost function After(ids: set<int>, limit: nat, position: Option<int>): (seq<int>, Option<int>)
    requires limit >= 1
  {
    var all := Ascending(Past(ids, position));
    if |all| <= limit then (all, None) else (all[..limit], Some(all[limit - 1]))
  }

  /** A cursor stands for a position. */
  lemma RowsArePositions(ids: set<int>, limit: nat, cursor: Option<string>)
    requires limit >= 1
    ensures var (items, position) := After(ids, limit, DecodeId(cursor)); var (rows, next) := Rows(ids, limit, cursor);
      rows == items && (next.None? <==> position.None?) && (next.Some? ==> DecodeId(next) == position)
  {
    var all := Ascending(Past(ids, DecodeId(cursor)));
    if |all| > limit {
      IdRoundTrip(all[limit - 1]);
      assert First(all, limit + 1)[..limit] == all[..limit];
    }
  }

  /** What a page holds. */
  lemma AfterIsExact(ids: set<int>, limit: nat, position: Option<int>)
    requires limit >= 1
    ensures var past := Past(ids, position); var (items, next) := After(ids, limit, position);
      && Increasing(items) && (forall i :: i in items ==> i in past) && |items| <= limit
      && (next.None? ==> forall i :: i in past ==> i in items)
      && (next.Some? ==>
            && |items| == limit && next.value == items[limit - 1] && next.value in ids
            && Past(ids, next) != {}
            && forall i :: i in past ==> (i in items <==> i <= next.value))
  {
    var past := Past(ids, position);
    var all := Ascending(past);
    AscendingSorts(past);
    if |all| > limit {
      assert all[limit - 1] in all && all[limit] in all;
      assert all[limit] in Above(ids, all[limit - 1]);
      forall i | i in past ensures i in all[..limit] <==> i <= all[limit - 1] {
      }
    }
  }

  /** A page holds the next rows in order, none skipped; it comes with a cursor exactly when
      another row follows, and the cursor stands for its last row. */
  lemma PageIsExact(ids: set<int>, limit: nat, cursor: Option<string>)
    requires limit >= 1
    ensures var past := Past(ids, DecodeId(cursor)); var (items, next) := Rows(ids, limit, cursor);
      && Increasing(items) && (forall i :: i in items ==> i in past) && |items| <= limit
      && (next.None? <==> forall i :: i in past ==> i in items)
      && (next.Some? ==>
            && |items| == limit && DecodeId(next) == Some(items[limit - 1])
            && forall i :: i in past ==> (i in items <==> i <= items[limit - 1]))
  {
    var past, position := Past(ids, DecodeId(cursor)), DecodeId(cursor);
    RowsArePositions(ids, limit, cursor);
    AfterIsExact(ids, limit, position);
    var next := After(ids, limit, position).1;
    if next.Some? {
      assert next.value in After(ids, limit, position).0;
      var later :| later in Past(ids, next);
      assert later in past && later !in Rows(ids, limit, cursor).0;
    }
  }

  // ---------------------------------------------------------------- walks

  /** The pages a client gets that follows the cursors, the table being tables[0] when it asks
      for the first, tables[1] for the second, and so on. */
  ghost function Walk(tables: seq<set<int>>, limit: nat, cursor: Option<string>): seq<seq<int>>
    requires limit >= 1
  {
    if tables == [] then []
    else
      var (items, next) := Rows(tables[0], limit, cursor);
      [items] + (if next.None? then [] else Walk(tables[1..], limit, next))
  }

  /** The walk reaches a null cursor within these tables. */
  ghost predicate Finishes(tables: seq<set<int>>, limit: nat, cursor: Option<string>)
    requires limit >= 1
  {
    tables != [] &&
    var (_, next) := Rows(tables[0], limit, cursor);
    next.None? || Finishes(tables[1..], limit, next)
  }

  /** The same walk by positions. */
  ghost function Steps(tables: seq<set<int>>, limit: nat, position: Option<int>): seq<seq<int>>
    requires limit >= 1
  {
    if tables == [] then []
    else
      var (items, next) := After(tables[0], limit, position);
      [items] + (if next.None? then [] else Steps(tables[1..], limit, next))
  }

  ghost predicate Ends(tables: seq<set<int>>, limit: nat, position: Option<int>)
    requires limit >= 1
  {
    tables != [] &&
    var (_, next) := After(tables[0], limit, position);
    next.None? || Ends(tables[1..], limit, next)
  }

  lemma {:induction false} WalkIsSteps(tables: seq<set<int>>, limit: nat, cursor: Option<string>)
    requires limit >= 1
    ensures Walk(tables, limit, cursor) == Steps(tables, limit, DecodeId(cursor))
    ensures Finishes(tables, limit, cursor) == Ends(tables, limit, DecodeId(cursor))
  {
    if tables != [] {
      RowsArePositions(tables[0], limit, cursor);
      var next := Rows(tables[0], limit, cursor).1;
      if next.Some? {
        WalkIsSteps(tables[1..], limit, next);
      }
    }
  }

  ghost function Flat(pages: seq<seq<int>>): seq<int> {
    if pages == [] then [] else pages[0] + Flat(pages[1..])
  }

  lemma FlatCons(items: seq<int>, rest: seq<seq<int>>)
    ensures Flat([items] + rest) == items + Flat(rest)
  {
    assert ([items] + rest)[1..] == rest;
  }

  lemma FlatOne(items: seq<int>)
    ensures Flat([items]) == items
  {
    FlatCons(items, []);
    assert [items] + [] == [items] && items + Flat([]) == items;
  }

  lemma {:induction false} IdsIncrease(tables: seq<set<int>>, limit: nat, position: Option<int>)
    requires limit >= 1
    ensures var ids := Flat(Steps(tables, limit, position));
      Increasing(ids) && forall i :: i in ids ==> position.None? || i > position.value
  {
    if tables != [] {
      var (items, next) := After(tables[0], limit, position);
      AfterIsExact(tables[0], limit, position);
      if next.Some? {
        var rest := Steps(tables[1..], limit, next);
        IdsIncrease(tables[1..], limit, next);
        FlatCons(items, rest);
        assert next.value in items;
        Chained(items, Flat(rest));
      } else {
        FlatOne(items);
      }
    }
  }

  /** A row there throughout is not missed. */
  lemma {:induction false} NothingIsMissed(tables: seq<set<int>>, limit: nat, position: Option<int>, id: int)
    requires limit >= 1 && Ends(tables, limit, position)
    requires (forall t :: t in tables ==> id in t) && (position.None? || id > position.value)
    ensures id in Flat(Steps(tables, limit, position))
  {
    var (items, next) := After(tables[0], limit, position);
    AfterIsExact(tables[0], limit, position);
    assert tables[0] in tables && id in Past(tables[0], position);
    if next.Some? {
      if id !in items {
        NothingIsMissed(tables[1..], limit, next, id);
      }
      FlatCons(items, Steps(tables[1..], limit, next));
    } else {
      FlatOne(items);
    }
  }

  lemma {:induction false} AtMostOnce(xs: seq<int>, x: int)
    requires Increasing(xs)
    ensures multiset(xs)[x] == if x in xs then 1 else 0
  {
    if xs != [] {
      AtMostOnce(xs[1..], x);
      assert xs == [xs[0]] + xs[1..];
      assert multiset(xs)[x] == multiset([xs[0]])[x] + multiset(xs[1..])[x];
    }
  }

  /** Every row returned was there when its page was asked for. */
  lemma {:induction false} NothingIsInvented(tables: seq<set<int>>, limit: nat, cursor: Option<string>, k: nat)
    requires limit >= 1 && k < |Walk(tables, limit, cursor)|
    ensures k < |tables| && forall i :: i in Walk(tables, limit, cursor)[k] ==> i in tables[k]
  {
    var next := Rows(tables[0], limit, cursor).1;
    PageIsExact(tables[0], limit, cursor);
    if k > 0 {
      NothingIsInvented(tables[1..], limit, next, k - 1);
    }
  }

  /** Over a whole walk ids only go up, and a row there at every page is returned exactly
      once, whatever is inserted or deleted in between. */
  lemma WalkIsSound(tables: seq<set<int>>, limit: nat)
    requires limit >= 1 && Finishes(tables, limit, None)
    ensures var ids := Flat(Walk(tables, limit, None));
      && Increasing(ids)
      && (forall id :: id in ids ==> multiset(ids)[id] == 1)
      && (forall id :: (forall t :: t in tables ==> id in t) ==> id in ids)
  {
    var ids := Flat(Walk(tables, limit, None));
    WalkIsSteps(tables, limit, None);
    IdsIncrease(tables, limit, None);
    forall id | id in ids ensures multiset(ids)[id] == 1 {
      AtMostOnce(ids, id);
    }
    forall id | forall t :: t in tables ==> id in t ensures id in ids {
      NothingIsMissed(tables, limit, None, id);
    }
  }

  // ---------------------------------------------------------------- a table that stays

  /** How many pages n rows take. */
  ghost function Pages(n: nat, limit: nat): (p: nat)
    requires limit >= 1
    ensures p >= 1
  {
    if n <= limit then 1 else 1 + Pages(n - limit, limit)
  }

  lemma {:induction false} PagesAreCeiling(n: nat, limit: nat)
    requires limit >= 1
    ensures n <= Pages(n, limit) * limit
    ensures Pages(n, limit) == 1 || (Pages(n, limit) - 1) * limit < n
  {
    if n > limit {
      var p := Pages(n - limit, limit);
      PagesAreCeiling(n - limit, limit);
      assert (1 + p) * limit == limit + p * limit;
      assert p * limit == (p - 1) * limit + limit;
    }
  }

  ghost function Same(ids: set<int>, k: nat): seq<set<int>> {
    if k == 0 then [] else [ids] + Same(ids, k - 1)
  }

  /** The rest of a table past its first page. */
  lemma NextOfStatic(ids: set<int>, limit: nat, position: Option<int>, all: seq<int>)
    requires all == Ascending(Past(ids, position)) && 1 <= limit < |all|
    ensures Ascending(Past(ids, Some(all[limit - 1]))) == all[limit..]
  {
    var past, last := Past(ids, position), all[limit - 1];
    AscendingSorts(past);
    AscendingAbove(past, limit);
    assert last in all;
    assert Above(ids, last) == Above(past, last);
  }

  /** A list cut into pages. */
  ghost function Cut(all: seq<int>, limit: nat): seq<seq<int>>
    requires limit >= 1
  {
    if |all| <= limit then [all] else [all[..limit]] + Cut(all[limit..], limit)
  }

  lemma {:induction false} CutKeepsAll(all: seq<int>, limit: nat)
    requires limit >= 1
    ensures Flat(Cut(all, limit)) == all && |Cut(all, limit)| == Pages(|all|, limit)
    decreases |all|
  {
    if |all| <= limit {
      FlatOne(all);
    } else {
      CutKeepsAll(all[limit..], limit);
      FlatCons(all[..limit], Cut(all[limit..], limit));
      assert all == all[..limit] + all[limit..];
    }
  }

  lemma {:induction false} StaticSteps(ids: set<int>, limit: nat, position: Option<int>, k: nat, all: seq<int>)
    requires all == Ascending(Past(ids, position)) && limit >= 1 && k >= Pages(|all|, limit)
    ensures Ends(Same(ids, k), limit, position)
    ensures Steps(Same(ids, k), limit, position) == Cut(all, limit)
    decreases k
  {
    if |all| > limit {
      NextOfStatic(ids, limit, position, all);
      StaticSteps(ids, limit, Some(all[limit - 1]), k - 1, all[limit..]);
    }
  }

  /** A table that does not change is walked whole, in order, in max(1, ceil(n / limit))
      pages. */
  lemma StaticWalk(ids: set<int>, limit: nat, cursor: Option<string>, k: nat)
    requires limit >= 1 && k >= Pages(|Past(ids, DecodeId(cursor))|, limit)
    ensures var past, tables := Past(ids, DecodeId(cursor)), Same(ids, k);
      && Finishes(tables, limit, cursor)
      && Flat(Walk(tables, limit, cursor)) == Ascending(past)
      && |Walk(tables, limit, cursor)| == Pages(|past|, limit)
  {
    WalkIsSteps(Same(ids, k), limit, cursor);
    var all := Ascending(Past(ids, DecodeId(cursor)));
    AscendingSorts(Past(ids, DecodeId(cursor)));
    StaticSteps(ids, limit, DecodeId(cursor), k, all);
    CutKeepsAll(all, limit);
  }
}
