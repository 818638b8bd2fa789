/** Byte strings. */
module Bytes {
  type byte = x: int | 0 <= x < 256

  type Data = seq<byte>

  /** b"".join(chunks). */
  function Concat(chunks: seq<Data>): Data {
    if chunks == [] then [] else chunks[0] + Concat(chunks[1..])
  }

  lemma Regroup(a: Data, b: Data, c: Data)
    ensures a + (b + c) == (a + b) + c
  {
  }

  lemma {:induction false} ConcatAppends(xs: seq<Data>, ys: seq<Data>)
    ensures Concat(xs + ys) == Concat(xs) + Concat(ys)
  {
    if xs == [] {
      assert xs + ys == ys;
    } else {
      ConcatAppends(xs[1..], ys);
      assert (xs + ys)[1..] == xs[1..] + ys;
      Regroup(xs[0], Concat(xs[1..]), Concat(ys));
    }
  }

  lemma ConcatOneMore(xs: seq<Data>, x: Data)
    ensures Concat(xs + [x]) == Concat(xs) + x
  {
    ConcatAppends(xs, [x]);
    assert Concat([x]) == x;
  }
}
