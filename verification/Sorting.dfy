/** A stable sort by a preorder, as the built-in `sorted` is. */
module Sorting {

  ghost predicate Preorder<T(!new)>(le: (T, T) -> bool) {
    && (forall a, b :: le(a, b) || le(b, a))
    && (forall a, b, c :: le(a, b) && le(b, c) ==> le(a, c))
  }

  ghost predicate Ordered<T>(xs: seq<T>, le: (T, T) -> bool) {
    forall i, j :: 0 <= i < j < |xs| ==> le(xs[i], xs[j])
  }

  /** x before the first element it need not follow. */
  function Insert<T>(x: T, xs: seq<T>, le: (T, T) -> bool): seq<T> {
    if xs == [] || le(x, xs[0]) then [x] + xs else [xs[0]] + Insert(x, xs[1..], le)
  }

  function Sort<T>(xs: seq<T>, le: (T, T) -> bool): seq<T> {
    if xs == [] then [] else Insert(xs[0], Sort(xs[1..], le), le)
  }

  function Filter<T>(xs: seq<T>, p: T -> bool): seq<T> {
    if xs == [] then [] else (if p(xs[0]) then [xs[0]] else []) + Filter(xs[1..], p)
  }

  lemma FilterHead<T>(x: T, xs: seq<T>, p: T -> bool)
    ensures Filter([x] + xs, p) == (if p(x) then [x] else []) + Filter(xs, p)
  {
    assert ([x] + xs)[1..] == xs;
  }

  lemma {:induction false} InsertKeeps<T>(x: T, xs: seq<T>, le: (T, T) -> bool)
    ensures multiset(Insert(x, xs, le)) == multiset([x] + xs)
  {
    if xs != [] && !le(x, xs[0]) {
      InsertKeeps(x, xs[1..], le);
      assert xs == [xs[0]] + xs[1..];
      assert multiset([xs[0]] + Insert(x, xs[1..], le)) == multiset([xs[0]]) + multiset(Insert(x, xs[1..], le));
    }
  }

  lemma {:induction false} InsertOrdered<T(!new)>(x: T, xs: seq<T>, le: (T, T) -> bool)
    requires Preorder(le) && Ordered(xs, le)
    ensures Ordered(Insert(x, xs, le), le)
  {
    if xs != [] && !le(x, xs[0]) {
      var rest := Insert(x, xs[1..], le);
      InsertOrdered(x, xs[1..], le);
      InsertKeeps(x, xs[1..], le);
      forall y | y in rest ensures le(xs[0], y) {
        assert y in multiset(rest);
        assert y in [x] + xs[1..];
      }
    }
  }

  /** Among elements that may stand in any order, the order given is kept. */
  lemma {:induction false} InsertStable<T(!new)>(x: T, xs: seq<T>, le: (T, T) -> bool, p: T -> bool)
    requires forall a, b :: p(a) && p(b) ==> le(a, b)
    ensures Filter(Insert(x, xs, le), p) == (if p(x) then [x] else []) + Filter(xs, p)
  {
    if xs == [] || le(x, xs[0]) {
      FilterHead(x, xs, p);
    } else {
      InsertStable(x, xs[1..], le, p);
      FilterHead(xs[0], Insert(x, xs[1..], le), p);
    }
  }

  lemma {:induction false} SortKeeps<T>(xs: seq<T>, le: (T, T) -> bool)
    ensures multiset(Sort(xs, le)) == multiset(xs)
    ensures |Sort(xs, le)| == |xs|
  {
    if xs != [] {
      SortKeeps(xs[1..], le);
      InsertKeeps(xs[0], Sort(xs[1..], le), le);
      assert xs == [xs[0]] + xs[1..];
      assert multiset(Sort(xs, le)) == multiset(xs);
    }
    assert |multiset(Sort(xs, le))| == |multiset(xs)|;
  }

  lemma {:induction false} SortOrders<T(!new)>(xs: seq<T>, le: (T, T) -> bool)
    requires Preorder(le)
    ensures Ordered(Sort(xs, le), le)
  {
    if xs != [] {
      SortOrders(xs[1..], le);
      InsertOrdered(xs[0], Sort(xs[1..], le), le);
    }
  }

  lemma {:induction false} SortIsStable<T(!new)>(xs: seq<T>, le: (T, T) -> bool, p: T -> bool)
    requires forall a, b :: p(a) && p(b) ==> le(a, b)
    ensures Filter(Sort(xs, le), p) == Filter(xs, p)
  {
    if xs != [] {
      SortIsStable(xs[1..], le, p);
      InsertStable(xs[0], Sort(xs[1..], le), le, p);
    }
  }

  lemma {:induction false} SortOfSorted<T>(xs: seq<T>, le: (T, T) -> bool)
    requires Ordered(xs, le)
    ensures Sort(xs, le) == xs
  {
    if xs != [] {
      SortOfSorted(xs[1..], le);
      assert xs == [xs[0]] + xs[1..];
    }
  }

  // ---------------------------------------------------------------- counting

  function Count<T>(xs: seq<T>, p: T -> bool): nat {
    |Filter(xs, p)|
  }

  lemma {:induction false} CountSplit<T>(xs: seq<T>, ys: seq<T>, p: T -> bool)
    ensures Count(xs + ys, p) == Count(xs, p) + Count(ys, p)
  {
    if xs == [] {
      assert xs + ys == ys;
    } else {
      CountSplit(xs[1..], ys, p);
      assert (xs + ys)[1..] == xs[1..] + ys;
    }
  }

  lemma {:induction false} CountAll<T>(xs: seq<T>, p: T -> bool)
    requires forall i :: 0 <= i < |xs| ==> p(xs[i])
    ensures Count(xs, p) == |xs|
  {
    if xs != [] {
      CountAll(xs[1..], p);
    }
  }

  lemma {:induction false} CountNone<T>(xs: seq<T>, p: T -> bool)
    requires forall i :: 0 <= i < |xs| ==> !p(xs[i])
    ensures Count(xs, p) == 0
  {
    if xs != [] {
      CountNone(xs[1..], p);
    }
  }

  lemma Without<T>(x: T, rest: seq<T>, before: seq<T>, after: seq<T>)
    requires multiset([x] + rest) == multiset(before + ([x] + after))
    ensures multiset(rest) == multiset(before + after)
  {
    assert multiset([x] + rest) == multiset{x} + multiset(rest);
    assert multiset(before + ([x] + after)) == multiset(before) + (multiset{x} + multiset(after));
    assert multiset(before + after) == multiset(before) + multiset(after);
    assert multiset(rest) == multiset([x] + rest) - multiset{x};
    assert multiset(before + after) == multiset(before + ([x] + after)) - multiset{x};
  }

  /** A count does not depend on the order. */
  lemma {:induction false} CountPermuted<T>(xs: seq<T>, ys: seq<T>, p: T -> bool)
    requires multiset(xs) == multiset(ys)
    ensures Count(xs, p) == Count(ys, p)
    decreases |xs|
  {
    assert |multiset(xs)| == |xs| && |multiset(ys)| == |ys|;
    if xs != [] {
      var x := xs[0];
      assert xs == [x] + xs[1..];
      assert x in multiset(xs);
      var k :| 0 <= k < |ys| && ys[k] == x;
      var before, after := ys[..k], ys[k + 1..];
      assert ys == before + ([x] + after);
      Without(x, xs[1..], before, after);
      CountPermuted(xs[1..], before + after, p);
      CountSplit(before, after, p);
      CountSplit(before, [x] + after, p);
      FilterHead(x, after, p);
      FilterHead(x, xs[1..], p);
    }
  }

  lemma {:induction false} CountAtMost<T>(xs: seq<T>, p: T -> bool)
    ensures Count(xs, p) <= |xs|
  {
    if xs != [] {
      CountAtMost(xs[1..], p);
    }
  }

  lemma {:induction false} CountNotMore<T(!new)>(xs: seq<T>, p: T -> bool, q: T -> bool)
    requires forall x :: p(x) ==> q(x)
    ensures Count(xs, p) <= Count(xs, q)
  {
    if xs != [] {
      CountNotMore(xs[1..], p, q);
    }
  }

  /** Strictly fewer where some element meets only the weaker condition. */
  lemma {:induction false} CountLess<T(!new)>(xs: seq<T>, p: T -> bool, q: T -> bool, x: T)
    requires (forall y :: p(y) ==> q(y)) && x in xs && !p(x) && q(x)
    ensures Count(xs, p) < Count(xs, q)
  {
    if xs[0] == x {
      CountNotMore(xs[1..], p, q);
    } else {
      CountLess(xs[1..], p, q, x);
    }
  }

  lemma {:induction false} CountTogether<T, U>(xs: seq<T>, ys: seq<U>, p: T -> bool, q: U -> bool)
    requires |xs| == |ys| && forall i :: 0 <= i < |xs| ==> (p(xs[i]) <==> q(ys[i]))
    ensures Count(xs, p) == Count(ys, q)
  {
    if xs != [] {
      CountTogether(xs[1..], ys[1..], p, q);
    }
  }

  lemma FirstIsLeast<T>(xs: seq<T>, ys: seq<T>, le: (T, T) -> bool)
    requires Ordered(xs, le) && multiset(xs) == multiset(ys) && xs != [] && ys != []
    ensures le(xs[0], ys[0]) || xs[0] == ys[0]
  {
    assert ys[0] in multiset(xs);
  }

  lemma SameTail<T>(x: T, xs: seq<T>, ys: seq<T>)
    requires multiset([x] + xs) == multiset([x] + ys)
    ensures multiset(xs) == multiset(ys)
  {
    Without(x, xs, [], ys);
    assert [] + ys == ys && [] + ([x] + ys) == [x] + ys;
  }

  lemma SameHead<T(!new)>(xs: seq<T>, ys: seq<T>, le: (T, T) -> bool)
    requires Ordered(xs, le) && Ordered(ys, le) && multiset(xs) == multiset(ys)
    requires forall a, b :: le(a, b) && le(b, a) ==> a == b
    ensures |xs| == |ys| && (xs != [] ==> xs[0] == ys[0])
  {
    assert |multiset(xs)| == |xs| && |multiset(ys)| == |ys|;
    if xs != [] {
      FirstIsLeast(xs, ys, le);
      FirstIsLeast(ys, xs, le);
    }
  }

  /** Where no two different elements are equivalent, there is one sorted order. */
  lemma {:induction false} SortedIsUnique<T(!new)>(xs: seq<T>, ys: seq<T>, le: (T, T) -> bool)
    requires Ordered(xs, le) && Ordered(ys, le) && multiset(xs) == multiset(ys)
    requires forall a, b :: le(a, b) && le(b, a) ==> a == b
    ensures xs == ys
  {
    SameHead(xs, ys, le);
    if xs != [] {
      assert xs == [xs[0]] + xs[1..] && ys == [xs[0]] + ys[1..];
      SameTail(xs[0], xs[1..], ys[1..]);
      SortedIsUnique(xs[1..], ys[1..], le);
    }
  }
}
