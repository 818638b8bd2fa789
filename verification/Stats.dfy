/** Item statistics over exact reals. */
module Stats {
  import opened Wrappers

  const MIN_RESPONSES: nat := 20

  datatype Response = Response(correct: bool, total: real)

  // ---------------------------------------------------------------- sums

  function Sum(xs: seq<real>): real {
    if xs == [] then 0.0 else xs[0] + Sum(xs[1..])
  }

  function Mean(xs: seq<real>): real
    requires xs != []
  {
    Sum(xs) / |xs| as real
  }

  /** The squared distance. */
  function Gap(x: real, m: real): real {
    (x - m) * (x - m)
  }

  function Times(x: real, y: real): real {
    x * y
  }

  /** Sum of squared distances from m. */
  function Spread(xs: seq<real>, m: real): real {
    if xs == [] then 0.0 else Gap(xs[0], m) + Spread(xs[1..], m)
  }

  function Totals(rs: seq<Response>): seq<real> {
    if rs == [] then [] else [rs[0].total] + Totals(rs[1..])
  }

  /** The totals of those who got the item right, or of those who did not. */
  function Group(rs: seq<Response>, correct: bool): seq<real> {
    if rs == [] then []
    else (if rs[0].correct == correct then [rs[0].total] else []) + Group(rs[1..], correct)
  }

  function Variance(xs: seq<real>): real
    requires xs != []
  {
    Spread(xs, Mean(xs)) / |xs| as real
  }

  /** A real square root: what math.sqrt is for non-negative arguments. */
  ghost predicate IsRoot(sqrt: real -> real) {
    forall v :: v >= 0.0 ==> sqrt(v) >= 0.0 && sqrt(v) * sqrt(v) == v
  }

  function Proportion(rs: seq<Response>): real
    requires rs != []
  {
    |Group(rs, true)| as real / |rs| as real
  }

  /** (u - v) / sigma * sqrt(p q). */
  function Coefficient(u: real, v: real, variance: real, p: real, sqrt: real -> real): real
    requires sqrt(variance) != 0.0
  {
    Times((u - v) / sqrt(variance), sqrt(Times(p, 1.0 - p)))
  }

  lemma RootIsPositive(sqrt: real -> real, v: real)
    requires IsRoot(sqrt) && v > 0.0
    ensures sqrt(v) > 0.0
  {
    assert sqrt(v) * sqrt(v) == v;
  }

  /** `point_biserial`: absent where the number would be meaningless. */
  function PointBiserial(rs: seq<Response>, sqrt: real -> real): Option<real>
    requires IsRoot(sqrt)
  {
    var right, wrong := Group(rs, true), Group(rs, false);
    if |rs| < 2 || right == [] || wrong == [] then None
    else
      TotalsLength(rs);
      var variance := Variance(Totals(rs));
      if variance <= 0.0 then None
      else
        RootIsPositive(sqrt, variance);
        Some(Coefficient(Mean(right), Mean(wrong), variance, Proportion(rs), sqrt))
  }

  lemma {:induction false} TotalsLength(rs: seq<Response>)
    ensures |Totals(rs)| == |rs|
    ensures forall i :: 0 <= i < |rs| ==> Totals(rs)[i] == rs[i].total
  {
    if rs != [] {
      TotalsLength(rs[1..]);
    }
  }

  // ---------------------------------------------------------------- splitting by group

  lemma {:induction false} GroupsSplit(rs: seq<Response>, m: real)
    ensures |Group(rs, true)| + |Group(rs, false)| == |rs|
    ensures Sum(Group(rs, true)) + Sum(Group(rs, false)) == Sum(Totals(rs))
    ensures Spread(Group(rs, true), m) + Spread(Group(rs, false), m) == Spread(Totals(rs), m)
  {
    if rs != [] {
      GroupsSplit(rs[1..], m);
      GroupHead(rs, true, m);
      GroupHead(rs, false, m);
      assert Totals(rs)[1..] == Totals(rs[1..]);
    }
  }

  lemma GroupHead(rs: seq<Response>, correct: bool, m: real)
    requires rs != []
    ensures var g, rest, t := Group(rs, correct), Group(rs[1..], correct), rs[0].total;
      if rs[0].correct == correct then
        |g| == 1 + |rest| && Sum(g) == t + Sum(rest) && Spread(g, m) == Gap(t, m) + Spread(rest, m)
      else g == rest
  {
    if rs[0].correct == correct {
      assert Group(rs, correct)[1..] == Group(rs[1..], correct);
    }
  }

  /** Moving the centre from a to m, by how far a is from being the mean. */
  function Shift(n: real, sum: real, a: real, m: real): real {
    2.0 * (a - m) * (sum - n * a) + n * ((a - m) * (a - m))
  }

  lemma {:induction false} SpreadShift(xs: seq<real>, a: real, m: real)
    ensures Spread(xs, m) == Spread(xs, a) + Shift(|xs| as real, Sum(xs), a, m)
  {
    if xs == [] {
      ShiftOfNothing(a, m);
    } else {
      SpreadShift(xs[1..], a, m);
      ShiftStep(xs[0], |xs[1..]| as real, Sum(xs[1..]), a, m);
      assert |xs| as real == |xs[1..]| as real + 1.0;
    }
  }

  lemma ShiftOfNothing(a: real, m: real)
    ensures Shift(0.0, 0.0, a, m) == 0.0
  {
  }

  lemma ShiftStep(x: real, n: real, s: real, a: real, m: real)
    ensures Gap(x, m) + Shift(n, s, a, m) == Gap(x, a) + Shift(n + 1.0, x + s, a, m)
  {
    var d := a - m;
    assert (x - m) * (x - m) == (x - a) * (x - a) + 2.0 * d * (x - a) + d * d;
    assert 2.0 * d * (x + s - (n + 1.0) * a) == 2.0 * d * (x - a) + 2.0 * d * (s - n * a);
    assert (n + 1.0) * (d * d) == n * (d * d) + d * d;
  }

  lemma ShiftFromMean(n: real, sum: real, a: real, m: real)
    requires Times(n, a) == sum
    ensures Shift(n, sum, a, m) == Times(n, Gap(a, m))
  {
    assert sum - n * a == 0.0;
    assert 2.0 * (a - m) * (sum - n * a) == 0.0;
  }

  /** About the mean `a` the cross term vanishes. */
  lemma SpreadAbout(xs: seq<real>, n: real, a: real, m: real)
    requires n == |xs| as real && Times(n, a) == Sum(xs)
    ensures Spread(xs, m) == Spread(xs, a) + Times(n, Gap(a, m))
  {
    SpreadShift(xs, a, m);
    ShiftFromMean(n, Sum(xs), a, m);
  }

  // ---------------------------------------------------------------- a cohort in numbers

  lemma Positive(x: real, y: real)
    requires x > 0.0 && y > 0.0
    ensures Times(x, y) > 0.0
  {
  }

  lemma GapIsSymmetric(x: real, m: real)
    ensures Gap(x, m) == Gap(m, x)
  {
  }

  lemma GapIsSquare(x: real, m: real, d: real)
    requires d == x - m
    ensures Gap(x, m) == Times(d, d)
  {
  }

  lemma GapAbove(x: real, m: real)
    requires x > m
    ensures Gap(x, m) > 0.0
  {
    GapIsSquare(x, m, x - m);
    Positive(x - m, x - m);
  }

  lemma GapIsPositive(x: real, m: real)
    ensures if x == m then Gap(x, m) == 0.0 else Gap(x, m) > 0.0
  {
    if x > m {
      GapAbove(x, m);
    } else if x < m {
      GapAbove(m, x);
      GapIsSymmetric(x, m);
    }
  }

  predicate AllEqual(xs: seq<real>, m: real) {
    xs == [] || (xs[0] == m && AllEqual(xs[1..], m))
  }

  lemma {:induction false} AllEqualMeans(xs: seq<real>, m: real)
    ensures AllEqual(xs, m) <==> forall i :: 0 <= i < |xs| ==> xs[i] == m
  {
    if xs != [] {
      AllEqualMeans(xs[1..], m);
      assert forall i :: 0 < i < |xs| ==> xs[i] == xs[1..][i - 1];
    }
  }

  lemma {:induction false} SpreadIsNonNegative(xs: seq<real>, m: real)
    ensures Spread(xs, m) >= 0.0
    ensures Spread(xs, m) == 0.0 <==> AllEqual(xs, m)
  {
    if xs != [] {
      SpreadIsNonNegative(xs[1..], m);
      GapIsPositive(xs[0], m);
    }
  }

  /** a right and b wrong answers with mean totals u and v, n in all with mean total m, the
      share p of right answers, the variance of the totals, and the spread of the totals
      within the two groups. */
  datatype Cohort = Cohort(a: real, b: real, n: real, u: real, v: real, m: real, p: real,
                           variance: real, within: real)

  ghost predicate TwoGroups(rs: seq<Response>) {
    Group(rs, true) != [] && Group(rs, false) != []
  }

  /** `c` is this cohort, each quotient given by what it multiplies out to. */
  ghost predicate Describes(c: Cohort, rs: seq<Response>) {
    && c.a == |Group(rs, true)| as real && c.b == |Group(rs, false)| as real && c.n == |rs| as real
    && Times(c.a, c.u) == Sum(Group(rs, true))
    && Times(c.b, c.v) == Sum(Group(rs, false))
    && Times(c.n, c.m) == Sum(Totals(rs))
    && Times(c.n, c.p) == c.a
    && Times(c.n, c.variance) == Spread(Totals(rs), c.m)
    && c.within == Spread(Group(rs, true), c.u) + Spread(Group(rs, false), c.v)
  }

  /** The relations between those numbers that hold for every cohort. */
  ghost predicate Fits(c: Cohort) {
    && c.a >= 1.0 && c.b >= 1.0 && c.n == c.a + c.b
    && Times(c.n, c.m) == Times(c.a, c.u) + Times(c.b, c.v)
    && Times(c.n, c.p) == c.a
    && Times(c.n, c.variance) == c.within + (Times(c.a, Gap(c.u, c.m)) + Times(c.b, Gap(c.v, c.m)))
    && c.within >= 0.0
  }

  lemma DescriptionFits(c: Cohort, rs: seq<Response>)
    requires Describes(c, rs) && TwoGroups(rs)
    ensures Fits(c)
  {
    var right, wrong := Group(rs, true), Group(rs, false);
    GroupsSplit(rs, c.m);
    SpreadAbout(right, c.a, c.u, c.m);
    SpreadAbout(wrong, c.b, c.v, c.m);
    SpreadIsNonNegative(right, c.u);
    SpreadIsNonNegative(wrong, c.v);
  }

  // ---------------------------------------------------------------- two groups and their mean

  lemma Increases(n: real, x: real, y: real)
    requires n > 0.0 && x < y
    ensures Times(n, x) < Times(n, y)
  {
    Positive(n, y - x);
    assert n * (y - x) == n * y - n * x;
  }

  lemma Adds(n: real, x: real, y: real)
    ensures Times(n, x + y) == Times(n, x) + Times(n, y)
  {
  }

  lemma ScaledGap(n: real, x: real, m: real, k: real, d: real)
    requires n * (x - m) == k * d
    ensures n * Gap(x, m) == k * (d * (x - m))
  {
    assert n * ((x - m) * (x - m)) == (n * (x - m)) * (x - m);
    assert (k * d) * (x - m) == k * (d * (x - m));
  }

  /** How far the common mean is from one group's, times n. */
  lemma MeansApart(a: real, b: real, u: real, v: real, n: real, m: real)
    requires n == a + b && Times(n, m) == Times(a, u) + Times(b, v)
    ensures n * (u - m) == b * (u - v) && n * (v - m) == a * (v - u)
  {
    assert n * (u - m) == n * u - n * m;
    assert n * (v - m) == n * v - n * m;
  }

  lemma BetweenTerm(n: real, a: real, x: real, m: real, b: real, d: real)
    requires n * (x - m) == b * d
    ensures Times(n, Times(a, Gap(x, m))) == Times(Times(a, b), d * (x - m))
  {
    ScaledGap(n, x, m, b, d);
    assert n * (a * Gap(x, m)) == a * (n * Gap(x, m));
    assert a * (b * (d * (x - m))) == (a * b) * (d * (x - m));
  }

  /** The spread of the two group means about m, times n. */
  lemma BetweenGroups(a: real, b: real, u: real, v: real, n: real, m: real, between: real)
    requires n == a + b && Times(n, m) == Times(a, u) + Times(b, v)
    requires between == Times(a, Gap(u, m)) + Times(b, Gap(v, m))
    ensures Times(n, between) == Times(Times(a, b), Gap(u, v))
  {
    MeansApart(a, b, u, v, n, m);
    BetweenTerm(n, a, u, m, b, u - v);
    BetweenTerm(n, b, v, m, a, v - u);
    Adds(n, Times(a, Gap(u, m)), Times(b, Gap(v, m)));
    Commutes(a, b);
    Adds(Times(a, b), (u - v) * (u - m), (v - u) * (v - m));
    assert (u - v) * (u - m) + (v - u) * (v - m) == Gap(u, v);
  }

  /** p(1 - p) is a b / n^2. */
  lemma IndicatorVariance(a: real, b: real, n: real, p: real, q: real)
    requires n == a + b && Times(n, p) == a && q == Times(p, 1.0 - p)
    ensures Times(n, Times(n, q)) == Times(a, b)
  {
    assert n * (1.0 - p) == n - n * p == b;
    assert n * (n * (p * (1.0 - p))) == (n * p) * (n * (1.0 - p));
  }

  lemma Regroup(n: real, q: real, g: real, k: real)
    requires Times(n, Times(n, q)) == k
    ensures Times(n, Times(n, Times(q, g))) == Times(k, g)
  {
    assert n * (n * (q * g)) == (n * (n * q)) * g;
  }

  /** The law of total variance for two groups, multiplied out by n. */
  lemma Decomposes(c: Cohort, q: real)
    requires Fits(c) && q == Times(c.p, 1.0 - c.p)
    ensures Times(c.n, c.variance) == c.within + Times(c.n, Times(q, Gap(c.u, c.v)))
  {
    var between := Times(c.a, Gap(c.u, c.m)) + Times(c.b, Gap(c.v, c.m));
    BetweenGroups(c.a, c.b, c.u, c.v, c.n, c.m, between);
    IndicatorVariance(c.a, c.b, c.n, c.p, q);
    Regroup(c.n, q, Gap(c.u, c.v), Times(c.a, c.b));
  }

  lemma Divides(k: real, x: real)
    requires k > 0.0
    ensures Times(k, x / k) == x
  {
  }

  /** The numbers of a cohort that has both groups. */
  ghost function CohortOf(rs: seq<Response>): Cohort
    requires TwoGroups(rs) && rs != [] && Totals(rs) != []
  {
    var right, wrong := Group(rs, true), Group(rs, false);
    Cohort(|right| as real, |wrong| as real, |rs| as real, Mean(right), Mean(wrong), Mean(Totals(rs)),
           Proportion(rs), Variance(Totals(rs)), Spread(right, Mean(right)) + Spread(wrong, Mean(wrong)))
  }

  lemma TwoGroupsAreTwo(rs: seq<Response>)
    requires TwoGroups(rs)
    ensures |Totals(rs)| == |rs| >= 2
  {
    TotalsLength(rs);
    GroupsSplit(rs, 0.0);
  }

  lemma CohortIsDescribed(rs: seq<Response>)
    requires TwoGroups(rs) && rs != [] && Totals(rs) != [] && |Totals(rs)| == |rs|
    ensures Describes(CohortOf(rs), rs)
  {
    var right, wrong, n := Group(rs, true), Group(rs, false), |rs| as real;
    Divides(|right| as real, Sum(right));
    Divides(|wrong| as real, Sum(wrong));
    Divides(n, Sum(Totals(rs)));
    Divides(n, Spread(Totals(rs), Mean(Totals(rs))));
    Divides(n, |right| as real);
  }

  // ---------------------------------------------------------------- the coefficient

  lemma QuotientSign(x: real, k: real)
    requires k > 0.0
    ensures x >= 0.0 ==> x / k >= 0.0
    ensures x / k == 0.0 <==> x == 0.0
  {
    Divides(k, x);
    if x / k < 0.0 {
      Increases(k, x / k, 0.0);
    }
  }

  /** The variance is never negative, and zero only when every total is the same. */
  lemma VarianceSign(xs: seq<real>)
    requires xs != []
    ensures Variance(xs) >= 0.0
    ensures Variance(xs) == 0.0 <==> AllEqual(xs, Mean(xs))
  {
    SpreadIsNonNegative(xs, Mean(xs));
    QuotientSign(Spread(xs, Mean(xs)), |xs| as real);
  }

  /** What `point_biserial` answers when it answers. */
  lemma CoefficientOf(rs: seq<Response>, sqrt: real -> real)
    requires IsRoot(sqrt) && TwoGroups(rs)
    ensures |Totals(rs)| == |rs| >= 2 && Fits(CohortOf(rs))
    ensures var c := CohortOf(rs);
      && c.variance >= 0.0
      && (PointBiserial(rs, sqrt).Some? <==> c.variance > 0.0)
      && (c.variance > 0.0 ==>
            && sqrt(c.variance) > 0.0
            && PointBiserial(rs, sqrt) == Some(Coefficient(c.u, c.v, c.variance, c.p, sqrt)))
  {
    TwoGroupsAreTwo(rs);
    CohortIsDescribed(rs);
    DescriptionFits(CohortOf(rs), rs);
    VarianceSign(Totals(rs));
    if CohortOf(rs).variance > 0.0 {
      RootIsPositive(sqrt, CohortOf(rs).variance);
    }
  }

  /** It is absent exactly when there are fewer than two responses, nobody or everybody
      was right, or every total is the same. */
  lemma AbsentExactly(rs: seq<Response>, sqrt: real -> real)
    requires IsRoot(sqrt)
    ensures PointBiserial(rs, sqrt).None? <==>
            || |rs| < 2 || Group(rs, true) == [] || Group(rs, false) == []
            || forall i :: 0 <= i < |rs| ==> rs[i].total == Mean(Totals(rs))
  {
    if TwoGroups(rs) {
      CoefficientOf(rs, sqrt);
      VarianceSign(Totals(rs));
      TotalsLength(rs);
      AllEqualMeans(Totals(rs), Mean(Totals(rs)));
    }
  }

  lemma RootOfShare(sqrt: real -> real, a: real, b: real, n: real, p: real, q: real)
    requires IsRoot(sqrt) && a >= 1.0 && b >= 1.0 && n == a + b && Times(n, p) == a
    requires q == Times(p, 1.0 - p)
    ensures q > 0.0 && sqrt(q) > 0.0 && Times(sqrt(q), sqrt(q)) == q
  {
    IndicatorVariance(a, b, n, p, q);
    Positive(a, b);
    PositiveFactor(n, Times(n, q));
    PositiveFactor(n, q);
    RootIsPositive(sqrt, q);
  }

  lemma PositiveFactor(n: real, x: real)
    requires n > 0.0 && Times(n, x) > 0.0
    ensures x > 0.0
  {
    if x < 0.0 {
      Increases(n, x, 0.0);
    }
  }

  /** r sigma = (u - v) w, whatever w stands for. */
  lemma Unscaled(d: real, s: real, w: real, z: real)
    requires s > 0.0 && Times(s, z) == d
    ensures Times(Times(z, w), s) == Times(d, w)
  {
    assert (z * w) * s == (s * z) * w;
  }

  lemma SquareOfProduct(x: real, y: real)
    ensures Times(Times(x, y), Times(x, y)) == Times(Times(x, x), Times(y, y))
  {
    assert (x * y) * (x * y) == (x * x) * (y * y);
  }

  /** r^2 Var = p q (u - v)^2. */
  lemma SquaredCoefficient(c: Cohort, sqrt: real -> real, q: real, r: real)
    requires IsRoot(sqrt) && Fits(c) && c.variance > 0.0 && sqrt(c.variance) > 0.0
    requires q == Times(c.p, 1.0 - c.p) && r == Coefficient(c.u, c.v, c.variance, c.p, sqrt)
    ensures Times(Times(r, r), c.variance) == Times(q, Gap(c.u, c.v))
  {
    var d, s, w := c.u - c.v, sqrt(c.variance), sqrt(q);
    assert Times(s, s) == c.variance by {
      assert sqrt(c.variance) * sqrt(c.variance) == c.variance;
    }
    RootOfShare(sqrt, c.a, c.b, c.n, c.p, q);
    var z := d / s;
    Divides(s, d);
    Unscaled(d, s, w, z);
    SquareOfProduct(r, s);
    SquareOfProduct(d, w);
    GapIsSquare(c.u, c.v, d);
    Commutes(q, Gap(c.u, c.v));
  }

  lemma Commutes(x: real, y: real)
    ensures Times(x, y) == Times(y, x)
  {
  }

  lemma Distributes(n: real, x: real, y: real)
    ensures Times(n, x - y) == Times(n, x) - Times(n, y)
  {
  }

  /** From n Var = within + n e and e = r^2 Var. */
  lemma BoundFromParts(n: real, variance: real, within: real, square: real)
    requires n > 0.0 && variance > 0.0 && within >= 0.0
    requires Times(n, variance) == within + Times(n, Times(square, variance))
    ensures square <= 1.0 && (square == 1.0 <==> within == 0.0)
  {
    var rest := variance - Times(square, variance);
    Distributes(n, variance, Times(square, variance));
    if square > 1.0 {
      Increases(variance, 1.0, square);
      Commutes(variance, square);
      Increases(n, rest, 0.0);
    } else if square < 1.0 {
      Increases(variance, square, 1.0);
      Commutes(variance, square);
      Increases(n, 0.0, rest);
    }
  }

  /** The total variance is the within-group variance plus p (1 - p) (u - v)^2, so the
      square of the coefficient is at most one, and is one exactly when the right
      answerers all have one total and the wrong answerers all have one total. */
  lemma CoefficientIsBounded(rs: seq<Response>, sqrt: real -> real)
    requires IsRoot(sqrt) && PointBiserial(rs, sqrt).Some?
    ensures TwoGroups(rs)
    ensures var r := PointBiserial(rs, sqrt).value;
      && Times(r, r) <= 1.0
      && (Times(r, r) == 1.0 <==>
            AllEqual(Group(rs, true), Mean(Group(rs, true))) && AllEqual(Group(rs, false), Mean(Group(rs, false))))
  {
    CoefficientOf(rs, sqrt);
    var c, r := CohortOf(rs), PointBiserial(rs, sqrt).value;
    var q := Times(c.p, 1.0 - c.p);
    SquaredCoefficient(c, sqrt, q, r);
    Decomposes(c, q);
    BoundFromParts(c.n, c.variance, c.within, Times(r, r));
    SpreadIsNonNegative(Group(rs, true), c.u);
    SpreadIsNonNegative(Group(rs, false), c.v);
  }

  /** It is negative exactly when those who got the item right did worse over all. */
  lemma SignIsTheGroupDifference(rs: seq<Response>, sqrt: real -> real)
    requires IsRoot(sqrt) && PointBiserial(rs, sqrt).Some?
    ensures TwoGroups(rs)
    ensures PointBiserial(rs, sqrt).value < 0.0 <==> Mean(Group(rs, true)) < Mean(Group(rs, false))
  {
    CoefficientOf(rs, sqrt);
    var c, r := CohortOf(rs), PointBiserial(rs, sqrt).value;
    var q := Times(c.p, 1.0 - c.p);
    var d, s, w := c.u - c.v, sqrt(c.variance), sqrt(q);
    RootOfShare(sqrt, c.a, c.b, c.n, c.p, q);
    var z := d / s;
    Divides(s, d);
    Unscaled(d, s, w, z);
    SameSign(r, s, d, w);
  }

  lemma SameSign(r: real, s: real, d: real, w: real)
    requires s > 0.0 && w > 0.0 && Times(r, s) == Times(d, w)
    ensures r < 0.0 <==> d < 0.0
  {
    Commutes(r, s);
    Commutes(d, w);
    if r < 0.0 {
      Increases(s, r, 0.0);
    }
    if d < 0.0 {
      Increases(w, d, 0.0);
    }
    if r > 0.0 {
      Increases(s, 0.0, r);
    }
    if d > 0.0 {
      Increases(w, 0.0, d);
    }
  }

  // ---------------------------------------------------------------- Pearson's correlation

  /** 1 for a right answer, 0 for a wrong one. */
  function Indicators(rs: seq<Response>): seq<real> {
    if rs == [] then [] else [if rs[0].correct then 1.0 else 0.0] + Indicators(rs[1..])
  }

  /** Sum of products of the distances of xs from k and of ys from m. */
  function CoSpread(xs: seq<real>, ys: seq<real>, k: real, m: real): real
    requires |xs| == |ys|
  {
    if xs == [] then 0.0 else Times(xs[0] - k, ys[0] - m) + CoSpread(xs[1..], ys[1..], k, m)
  }

  function Covariance(xs: seq<real>, ys: seq<real>): real
    requires |xs| == |ys| && xs != []
  {
    CoSpread(xs, ys, Mean(xs), Mean(ys)) / |xs| as real
  }

  lemma {:induction false} IndicatorSums(rs: seq<Response>, k: real)
    ensures |Indicators(rs)| == |rs|
    ensures Sum(Indicators(rs)) == |Group(rs, true)| as real
    ensures Spread(Indicators(rs), k) ==
            Times(|Group(rs, true)| as real, Gap(1.0, k)) + Times(|Group(rs, false)| as real, Gap(0.0, k))
  {
    if rs != [] {
      IndicatorSums(rs[1..], k);
      GroupHead(rs, true, k);
      GroupHead(rs, false, k);
      assert Indicators(rs)[1..] == Indicators(rs[1..]);
      var here := rs[0].correct;
      OneMore(|Group(rs[1..], here)| as real, if here then Gap(1.0, k) else Gap(0.0, k));
    }
  }

  lemma OneMore(n: real, g: real)
    ensures Times(n + 1.0, g) == g + Times(n, g)
  {
  }

  /** What the sum of products is, from the sums. */
  function Crossed(right: real, a: real, sum: real, n: real, k: real, m: real): real {
    right - a * m - k * (sum - n * m)
  }

  lemma CrossedStep(one: real, t: real, right: real, a: real, sum: real, n: real, k: real, m: real)
    ensures Crossed(right + one * t, a + one, sum + t, n + 1.0, k, m)
            == Times(one - k, t - m) + Crossed(right, a, sum, n, k, m)
  {
    assert (one - k) * (t - m) == one * t - one * m - k * (t - m);
    assert k * (sum + t - (n + 1.0) * m) == k * (t - m) + k * (sum - n * m);
    assert (a + one) * m == a * m + one * m;
  }

  lemma {:induction false} CoSpreadFromSums(rs: seq<Response>, k: real, m: real)
    ensures |Indicators(rs)| == |Totals(rs)| == |rs|
    ensures CoSpread(Indicators(rs), Totals(rs), k, m) ==
            Crossed(Sum(Group(rs, true)), |Group(rs, true)| as real, Sum(Totals(rs)), |rs| as real, k, m)
  {
    TotalsLength(rs);
    IndicatorSums(rs, k);
    if rs == [] {
      assert k * (0.0 - 0.0 * m) == 0.0;
    } else {
      CoSpreadFromSums(rs[1..], k, m);
      GroupHead(rs, true, k);
      assert Indicators(rs)[1..] == Indicators(rs[1..]);
      assert Totals(rs)[1..] == Totals(rs[1..]);
      var rest := Group(rs[1..], true);
      CrossedStep(Indicators(rs)[0], rs[0].total, Sum(rest), |rest| as real, Sum(Totals(rs[1..])),
                  |rs[1..]| as real, k, m);
      assert |rs| as real == |rs[1..]| as real + 1.0;
    }
  }

  lemma CrossedAtOwnMean(right: real, a: real, n: real, k: real, m: real)
    ensures Crossed(right, a, Times(n, m), n, k, m) == right - Times(a, m)
  {
    assert k * (Times(n, m) - n * m) == 0.0;
  }

  lemma Cancels(n: real, x: real, y: real)
    requires n > 0.0 && Times(n, x) == Times(n, y)
    ensures x == y
  {
    if x < y {
      Increases(n, x, y);
    } else if y < x {
      Increases(n, y, x);
    }
  }

  /** The law of total variance: the variance of the totals is what is left within the two groups
      and what lies between them. */
  lemma TotalVariance(rs: seq<Response>)
    requires TwoGroups(rs)
    ensures |Totals(rs)| == |rs| >= 2
    ensures var right, wrong, n := Group(rs, true), Group(rs, false), |rs| as real;
      var p := |right| as real / n;
      Variance(Totals(rs)) ==
        (Spread(right, Mean(right)) + Spread(wrong, Mean(wrong))) / n
        + Times(Times(p, 1.0 - p), Gap(Mean(right), Mean(wrong)))
  {
    TwoGroupsAreTwo(rs);
    CohortIsDescribed(rs);
    var c := CohortOf(rs);
    DescriptionFits(c, rs);
    var q := Times(c.p, 1.0 - c.p);
    Decomposes(c, q);
    Divides(c.n, c.within);
    Adds(c.n, c.within / c.n, Times(q, Gap(c.u, c.v)));
    Cancels(c.n, c.variance, c.within / c.n + Times(q, Gap(c.u, c.v)));
  }

  /** Both means known, the sum of products is n p q (u - v). */
  lemma CrossedAtMeans(c: Cohort, q: real)
    requires Fits(c) && q == Times(c.p, 1.0 - c.p)
    ensures Crossed(Times(c.a, c.u), c.a, Times(c.n, c.m), c.n, c.p, c.m) == Times(c.n, Times(q, c.u - c.v))
  {
    var a, d, x := c.a, c.u - c.v, c.u - c.m;
    CrossedAtOwnMean(Times(a, c.u), a, c.n, c.p, c.m);
    Distributes(a, c.u, c.m);
    MeansApart(a, c.b, c.u, c.v, c.n, c.m);
    assert Times(c.n, Times(a, x)) == Times(Times(a, c.b), d) by {
      assert c.n * (a * x) == a * (c.n * x);
      assert a * (c.b * d) == (a * c.b) * d;
    }
    IndicatorVariance(a, c.b, c.n, c.p, q);
    Regroup(c.n, q, d, Times(a, c.b));
    Cancels(c.n, Times(a, x), Times(c.n, Times(q, d)));
  }

  /** The variance of the indicator is p (1 - p). */
  lemma IndicatorSpread(a: real, b: real, n: real, p: real, q: real)
    requires n == a + b && Times(n, p) == a && q == Times(p, 1.0 - p)
    ensures Times(a, Gap(1.0, p)) + Times(b, Gap(0.0, p)) == Times(n, q)
  {
    var o := 1.0 - p;
    assert n * o == n - n * p == b;
    assert (n * p) * (o * o) == n * (p * (o * o));
    assert (n * o) * (p * p) == n * (o * (p * p));
    assert p * (o * o) + o * (p * p) == p * o * (o + p);
  }

  lemma MeansOf(rs: seq<Response>)
    requires TwoGroups(rs)
    ensures |Totals(rs)| == |Indicators(rs)| == |rs| >= 2
    ensures var c := CohortOf(rs); var q := Times(c.p, 1.0 - c.p);
      && Mean(Indicators(rs)) == c.p
      && Variance(Indicators(rs)) == q
      && Covariance(Indicators(rs), Totals(rs)) == Times(q, c.u - c.v)
  {
    TwoGroupsAreTwo(rs);
    CohortIsDescribed(rs);
    var c := CohortOf(rs);
    DescriptionFits(c, rs);
    var q := Times(c.p, 1.0 - c.p);
    IndicatorSums(rs, c.p);
    IndicatorSpread(c.a, c.b, c.n, c.p, q);
    DividesBack(c.n, q, Spread(Indicators(rs), c.p));
    CoSpreadFromSums(rs, c.p, c.m);
    CrossedAtMeans(c, q);
    DividesBack(c.n, Times(q, c.u - c.v), CoSpread(Indicators(rs), Totals(rs), c.p, c.m));
  }

  lemma DividesBack(n: real, x: real, y: real)
    requires n > 0.0 && y == Times(n, x)
    ensures y / n == x
  {
    Divides(n, y);
  }

  /** The coefficient is Pearson's: the covariance of the right-or-wrong indicator with the
      totals over the product of their standard deviations. */
  lemma IsPearson(rs: seq<Response>, sqrt: real -> real)
    requires IsRoot(sqrt) && PointBiserial(rs, sqrt).Some?
    ensures TwoGroups(rs) && |Totals(rs)| == |Indicators(rs)| == |rs| >= 2
    ensures sqrt(Variance(Indicators(rs))) > 0.0 && sqrt(Variance(Totals(rs))) > 0.0
    ensures Times(Times(PointBiserial(rs, sqrt).value, sqrt(Variance(Totals(rs)))), sqrt(Variance(Indicators(rs))))
            == Covariance(Indicators(rs), Totals(rs))
  {
    CoefficientOf(rs, sqrt);
    MeansOf(rs);
    var c := CohortOf(rs);
    var q := Times(c.p, 1.0 - c.p);
    var d, s, w := c.u - c.v, sqrt(c.variance), sqrt(q);
    RootOfShare(sqrt, c.a, c.b, c.n, c.p, q);
    var z := d / s;
    Divides(s, d);
    Unscaled(d, s, w, z);
    assert Times(Times(d, w), w) == Times(q, d) by {
      assert (d * w) * w == (w * w) * d;
    }
  }

  // ---------------------------------------------------------------- change of scale

  function Moved(x: real, k: real, c: real): real {
    Times(k, x) + c
  }

  /** Every total multiplied by k and moved by c. */
  function Rescaled(rs: seq<Response>, k: real, c: real): seq<Response> {
    if rs == [] then [] else [Response(rs[0].correct, Moved(rs[0].total, k, c))] + Rescaled(rs[1..], k, c)
  }

  function Affine(xs: seq<real>, k: real, c: real): seq<real> {
    if xs == [] then [] else [Moved(xs[0], k, c)] + Affine(xs[1..], k, c)
  }

  lemma RescaledGroup(rs: seq<Response>, g: bool, k: real, c: real)
    requires rs != []
    requires Group(Rescaled(rs[1..], k, c), g) == Affine(Group(rs[1..], g), k, c)
    ensures Group(Rescaled(rs, k, c), g) == Affine(Group(rs, g), k, c)
  {
    assert Rescaled(rs, k, c)[1..] == Rescaled(rs[1..], k, c);
    assert Rescaled(rs, k, c)[0] == Response(rs[0].correct, Moved(rs[0].total, k, c));
    if rs[0].correct == g {
      assert Group(rs, g) == [rs[0].total] + Group(rs[1..], g);
      AffineHead(rs[0].total, Group(rs[1..], g), k, c);
    } else {
      assert Group(rs, g) == Group(rs[1..], g);
    }
  }

  lemma {:induction false} RescaledParts(rs: seq<Response>, k: real, c: real)
    ensures |Rescaled(rs, k, c)| == |rs|
    ensures Totals(Rescaled(rs, k, c)) == Affine(Totals(rs), k, c)
    ensures forall g :: Group(Rescaled(rs, k, c), g) == Affine(Group(rs, g), k, c)
  {
    if rs != [] {
      RescaledParts(rs[1..], k, c);
      assert Rescaled(rs, k, c)[1..] == Rescaled(rs[1..], k, c);
      var t := rs[0].total;
      assert Totals(rs) == [t] + Totals(rs[1..]);
      assert Rescaled(rs, k, c)[0] == Response(rs[0].correct, Moved(t, k, c));
      AffineHead(t, Totals(rs[1..]), k, c);
      forall g ensures Group(Rescaled(rs, k, c), g) == Affine(Group(rs, g), k, c) {
        RescaledGroup(rs, g, k, c);
      }
    }
  }

  lemma AffineHead(x: real, xs: seq<real>, k: real, c: real)
    ensures Affine([x] + xs, k, c) == [Moved(x, k, c)] + Affine(xs, k, c)
  {
    assert ([x] + xs)[1..] == xs;
  }

  lemma {:induction false} AffineSum(xs: seq<real>, k: real, c: real)
    ensures |Affine(xs, k, c)| == |xs|
    ensures Sum(Affine(xs, k, c)) == Times(k, Sum(xs)) + Times(|xs| as real, c)
  {
    if xs != [] {
      AffineSum(xs[1..], k, c);
      assert Affine(xs, k, c)[1..] == Affine(xs[1..], k, c);
      assert k * (xs[0] + Sum(xs[1..])) == k * xs[0] + k * Sum(xs[1..]);
      OneMore(|xs[1..]| as real, c);
      assert |xs| as real == |xs[1..]| as real + 1.0;
    }
  }

  lemma ScaledDistance(x: real, m: real, k: real, c: real)
    ensures Gap(Moved(x, k, c), Moved(m, k, c)) == Times(Times(k, k), Gap(x, m))
  {
    var d := x - m;
    assert k * x + c - (k * m + c) == k * d;
    assert (k * d) * (k * d) == (k * k) * (d * d);
  }

  lemma SplitProduct(k: real, x: real, y: real)
    ensures Times(k, x + y) == Times(k, x) + Times(k, y)
  {
  }

  lemma {:induction false} AffineSpread(xs: seq<real>, k: real, c: real, m: real)
    ensures Spread(Affine(xs, k, c), Moved(m, k, c)) == Times(Times(k, k), Spread(xs, m))
  {
    if xs != [] {
      AffineSpread(xs[1..], k, c, m);
      assert Affine(xs, k, c)[1..] == Affine(xs[1..], k, c);
      ScaledDistance(xs[0], m, k, c);
      SplitProduct(Times(k, k), Gap(xs[0], m), Spread(xs[1..], m));
    }
  }

  lemma MeanFromSum(n: real, m: real, s: real, k: real, c: real)
    requires Times(n, m) == s
    ensures Times(k, s) + Times(n, c) == Times(n, Times(k, m) + c)
  {
    assert k * (n * m) == n * (k * m);
    assert n * (k * m + c) == n * (k * m) + n * c;
  }

  lemma AffineMoments(xs: seq<real>, k: real, c: real)
    requires xs != []
    ensures |Affine(xs, k, c)| == |xs|
    ensures Mean(Affine(xs, k, c)) == Times(k, Mean(xs)) + c
    ensures Variance(Affine(xs, k, c)) == Times(Times(k, k), Variance(xs))
  {
    var n, m := |xs| as real, Mean(xs);
    AffineSum(xs, k, c);
    Divides(n, Sum(xs));
    MeanFromSum(n, m, Sum(xs), k, c);
    DividesBack(n, Times(k, m) + c, Sum(Affine(xs, k, c)));
    AffineSpread(xs, k, c, m);
    Divides(n, Spread(xs, m));
    Exchange(Times(k, k), n, Variance(xs));
    DividesBack(n, Times(Times(k, k), Variance(xs)), Spread(Affine(xs, k, c), Mean(Affine(xs, k, c))));
  }

  lemma Exchange(x: real, y: real, z: real)
    ensures Times(x, Times(y, z)) == Times(y, Times(x, z))
  {
    assert x * (y * z) == y * (x * z);
  }

  lemma RootIsUnique(x: real, y: real)
    requires x >= 0.0 && y >= 0.0 && Times(x, x) == Times(y, y)
    ensures x == y
  {
    if x < y {
      LargerSquare(x, y);
    } else if y < x {
      LargerSquare(y, x);
    }
  }

  lemma LargerSquare(x: real, y: real)
    requires 0.0 <= x < y
    ensures Times(x, x) < Times(y, y)
  {
    Increases(y, x, y);
    if x > 0.0 {
      Increases(x, x, y);
      Commutes(x, y);
    }
  }

  lemma ScaledRoot(sqrt: real -> real, k: real, v: real)
    requires IsRoot(sqrt) && k > 0.0 && v > 0.0
    ensures Times(Times(k, k), v) > 0.0 && sqrt(Times(Times(k, k), v)) == Times(k, sqrt(v))
  {
    Positive(k, k);
    Positive(Times(k, k), v);
    RootIsPositive(sqrt, v);
    Positive(k, sqrt(v));
    SquareOfProduct(k, sqrt(v));
    assert Times(sqrt(v), sqrt(v)) == v;
    RootIsUnique(sqrt(Times(Times(k, k), v)), Times(k, sqrt(v)));
  }

  lemma ScaledQuotient(k: real, d: real, s: real)
    requires k > 0.0 && s > 0.0 && Times(k, s) > 0.0
    ensures Times(k, d) / Times(k, s) == d / s
  {
    Divides(s, d);
    assert k * (s * (d / s)) == (k * s) * (d / s);
    DividesBack(Times(k, s), d / s, Times(k, d));
  }

  /** Adding the same number to all totals, or multiplying them all by the same positive
      number, changes nothing, absence included. */
  lemma ScaleDoesNotMatter(rs: seq<Response>, sqrt: real -> real, k: real, c: real)
    requires IsRoot(sqrt) && k > 0.0
    ensures PointBiserial(Rescaled(rs, k, c), sqrt) == PointBiserial(rs, sqrt)
  {
    var ss := Rescaled(rs, k, c);
    RescaledParts(rs, k, c);
    AffineSum(Group(rs, true), k, c);
    AffineSum(Group(rs, false), k, c);
    if TwoGroups(rs) {
      CoefficientOf(rs, sqrt);
      CoefficientOf(ss, sqrt);
      AffineMoments(Group(rs, true), k, c);
      AffineMoments(Group(rs, false), k, c);
      AffineMoments(Totals(rs), k, c);
      var a, b := CohortOf(rs), CohortOf(ss);
      if a.variance > 0.0 {
        ScaledRoot(sqrt, k, a.variance);
        Distributes(k, a.u, a.v);
        ScaledQuotient(k, a.u - a.v, sqrt(a.variance));
      }
    }
  }

  // ---------------------------------------------------------------- flags

  /** `round(x, 4)`: to the nearest ten-thousandth, halves to the even one. */
  function Round4(x: real): real {
    var scaled := x * 10000.0;
    var below := scaled.Floor;
    var over := scaled - below as real;
    var near := if over < 0.5 || (over == 0.5 && below % 2 == 0) then below else below + 1;
    near as real / 10000.0
  }

  /** The nearest ten-thousandth, and of two as near the even one. */
  lemma RoundsToNearest(x: real) returns (k: int)
    ensures Round4(x) == k as real / 10000.0
    ensures -0.00005 <= x - Round4(x) <= 0.00005
    ensures x - Round4(x) == 0.00005 || x - Round4(x) == -0.00005 ==> k % 2 == 0
  {
    var below := (x * 10000.0).Floor;
    var over := x * 10000.0 - below as real;
    k := if over < 0.5 || (over == 0.5 && below % 2 == 0) then below else below + 1;
  }

  lemma RoundedIsNegative(x: real)
    ensures Round4(x) < 0.0 <==> x < -0.00005
  {
  }

  datatype Reason = NearZeroP | NearOneP | NegativeDiscrimination | CommonWrongAnswer

  /** `_flagged`: `wrong` holds the shares of the commonest wrong answers. */
  function Flagged(n: nat, p: Option<real>, discrimination: Option<real>, wrong: seq<real>): seq<Reason> {
    if n < MIN_RESPONSES then []
    else
      (if p.Some? && p.value < 0.05 then [NearZeroP] else [])
      + (if p.Some? && p.value > 0.98 then [NearOneP] else [])
      + (if discrimination.Some? && discrimination.value < 0.0 then [NegativeDiscrimination] else [])
      + (if exists i :: 0 <= i < |wrong| && wrong[i] >= 0.1 then [CommonWrongAnswer] else [])
  }

  /** The flags `analyse` sets, given the shares of the commonest wrong answers. */
  function Analyse(rs: seq<Response>, sqrt: real -> real, wrong: seq<real>): seq<Reason>
    requires IsRoot(sqrt)
  {
    if rs == [] then []
    else
      var r := PointBiserial(rs, sqrt);
      Flagged(|rs|, Some(Round4(Proportion(rs))), if r.Some? then Some(Round4(r.value)) else None,
              wrong)
  }

  lemma RoundedIsBelow(x: real)
    ensures Round4(x) < 0.05 <==> x < 0.04995
    ensures Round4(x) > 0.98 <==> x > 0.98005
  {
  }

  lemma LargerShare(a: real, n: real, share: real)
    requires n > 0.0
    ensures a / n < share <==> a < Times(n, share)
    ensures a / n > share <==> a > Times(n, share)
  {
    Divides(n, a);
    if a / n < share {
      Increases(n, a / n, share);
    } else if share < a / n {
      Increases(n, share, a / n);
    }
  }

  /** The other flags in the inputs: at least twenty answered, and fewer than 4.995 or more than
      98.005 in a hundred of them rightly, or a wrong answer was given by a tenth. */
  lemma OtherFlagsMean(rs: seq<Response>, sqrt: real -> real, wrong: seq<real>)
    requires IsRoot(sqrt)
    ensures var flags, right, n := Analyse(rs, sqrt, wrong), |Group(rs, true)| as real, |rs| as real;
      && (NearZeroP in flags <==> |rs| >= 20 && right < Times(n, 0.04995))
      && (NearOneP in flags <==> |rs| >= 20 && right > Times(n, 0.98005))
      && (CommonWrongAnswer in flags <==> |rs| >= 20 && exists i :: 0 <= i < |wrong| && wrong[i] >= 0.1)
  {
    if rs != [] {
      RoundedIsBelow(Proportion(rs));
      LargerShare(|Group(rs, true)| as real, |rs| as real, 0.04995);
      LargerShare(|Group(rs, true)| as real, |rs| as real, 0.98005);
    }
  }

  /** p (1 - p) (M1 - M0)^2 exceeds (0.00005)^2 times the variance: the coefficient does not
      round to zero. */
  predicate Noticeable(rs: seq<Response>)
    requires TwoGroups(rs) && rs != [] && Totals(rs) != []
  {
    var p := Proportion(rs);
    Times(Times(p, 1.0 - p), Gap(Mean(Group(rs, true)), Mean(Group(rs, false)))) > 0.0000000025 * Variance(Totals(rs))
  }

  lemma SquareExceeds(r: real, variance: real)
    requires r < 0.0 && variance > 0.0
    ensures r < -0.00005 <==> Times(Times(r, r), variance) > 0.0000000025 * variance
  {
    var s, b := Times(r, r), 0.0000000025;
    assert r < -0.00005 <==> s > b by {
      if r < -0.00005 {
        LargerSquare(0.00005, -r);
      } else {
        NotLargerSquare(-r, 0.00005);
      }
      assert Times(-r, -r) == s && Times(0.00005, 0.00005) == b;
    }
    Commutes(s, variance);
    Commutes(b, variance);
    if s > b {
      Increases(variance, b, s);
    } else if s < b {
      Increases(variance, s, b);
    }
  }

  lemma NotLargerSquare(x: real, y: real)
    requires 0.0 <= x <= y
    ensures Times(x, x) <= Times(y, y)
  {
    if x < y {
      LargerSquare(x, y);
    }
  }

  /** An item is flagged as discriminating negatively if and only if at least twenty answered,
      both rightly and wrongly, those who got it right did worse over all, and the difference is
      noticeable beside the variance of the totals. */
  lemma NegativeFlagMeans(rs: seq<Response>, sqrt: real -> real, wrong: seq<real>)
    requires IsRoot(sqrt)
    ensures NegativeDiscrimination in Analyse(rs, sqrt, wrong) <==>
            && |rs| >= MIN_RESPONSES && TwoGroups(rs) && Totals(rs) != []
            && Mean(Group(rs, true)) < Mean(Group(rs, false)) && Noticeable(rs)
  {
    FlagIsTheCoefficient(rs, sqrt, wrong);
    TotalsLength(rs);
    if PointBiserial(rs, sqrt).Some? {
      CoefficientIsNoticeable(rs, sqrt);
    } else if TwoGroups(rs) {
      CoefficientOf(rs, sqrt);
      ConstantTotals(rs);
    }
  }

  lemma FlagIsTheCoefficient(rs: seq<Response>, sqrt: real -> real, wrong: seq<real>)
    requires IsRoot(sqrt)
    ensures NegativeDiscrimination in Analyse(rs, sqrt, wrong) <==>
            |rs| >= MIN_RESPONSES && PointBiserial(rs, sqrt).Some? && PointBiserial(rs, sqrt).value < -0.00005
  {
    if PointBiserial(rs, sqrt).Some? {
      RoundedIsNegative(PointBiserial(rs, sqrt).value);
    }
  }

  lemma CoefficientIsNoticeable(rs: seq<Response>, sqrt: real -> real)
    requires IsRoot(sqrt) && PointBiserial(rs, sqrt).Some?
    ensures TwoGroups(rs) && rs != [] && Totals(rs) != []
    ensures PointBiserial(rs, sqrt).value < -0.00005 <==>
            Mean(Group(rs, true)) < Mean(Group(rs, false)) && Noticeable(rs)
  {
    var r := PointBiserial(rs, sqrt).value;
    SignIsTheGroupDifference(rs, sqrt);
    CoefficientOf(rs, sqrt);
    var c := CohortOf(rs);
    SquaredCoefficient(c, sqrt, Times(c.p, 1.0 - c.p), r);
    if r < 0.0 {
      SquareExceeds(r, c.variance);
    }
  }

  lemma {:induction false} ConstantMean(xs: seq<real>, m: real)
    requires AllEqual(xs, m)
    ensures Sum(xs) == Times(|xs| as real, m)
  {
    if xs != [] {
      ConstantMean(xs[1..], m);
      OneMore(|xs[1..]| as real, m);
      assert |xs| as real == |xs[1..]| as real + 1.0;
    }
  }

  lemma {:induction false} GroupOfConstant(rs: seq<Response>, g: bool, m: real)
    requires AllEqual(Totals(rs), m)
    ensures AllEqual(Group(rs, g), m)
  {
    if rs != [] {
      assert Totals(rs)[1..] == Totals(rs[1..]);
      GroupOfConstant(rs[1..], g, m);
      if rs[0].correct == g {
        assert Group(rs, g) == [rs[0].total] + Group(rs[1..], g);
        assert rs[0].total == Totals(rs)[0] == m;
        assert Group(rs, g)[0] == m && Group(rs, g)[1..] == Group(rs[1..], g);
      } else {
        assert Group(rs, g) == Group(rs[1..], g);
      }
    }
  }

  /** With no variance the two group means agree. */
  lemma ConstantTotals(rs: seq<Response>)
    requires TwoGroups(rs) && Totals(rs) != [] && Variance(Totals(rs)) == 0.0
    ensures Mean(Group(rs, true)) == Mean(Group(rs, false))
  {
    var m := Mean(Totals(rs));
    VarianceSign(Totals(rs));
    forall g | Group(rs, g) != [] ensures Mean(Group(rs, g)) == m {
      GroupOfConstant(rs, g, m);
      ConstantMean(Group(rs, g), m);
      DividesBack(|Group(rs, g)| as real, m, Sum(Group(rs, g)));
    }
  }

  // ---------------------------------------------------------------- a cohort that goes unflagged

  function Copies(r: Response, k: nat): seq<Response> {
    if k == 0 then [] else [r] + Copies(r, k - 1)
  }

  lemma CopiesHead(r: Response, k: nat, rest: seq<Response>)
    requires k > 0
    ensures var rs := Copies(r, k) + rest;
      && |rs| > 0 && rs[0] == r && rs[1..] == Copies(r, k - 1) + rest
      && k as real == (k - 1) as real + 1.0
  {
  }

  /** What k like responses add to the sums over all. */
  lemma {:induction false} CopiesAddTotals(r: Response, k: nat, rest: seq<Response>, m: real)
    ensures var rs := Copies(r, k) + rest;
      && |rs| == k + |rest|
      && Sum(Totals(rs)) == Times(k as real, r.total) + Sum(Totals(rest))
      && Spread(Totals(rs), m) == Times(k as real, Gap(r.total, m)) + Spread(Totals(rest), m)
  {
    var rs := Copies(r, k) + rest;
    if k == 0 {
      assert rs == rest;
    } else {
      CopiesAddTotals(r, k - 1, rest, m);
      CopiesHead(r, k, rest);
      assert Totals(rs)[0] == r.total && Totals(rs)[1..] == Totals(rs[1..]);
      OneMore((k - 1) as real, r.total);
      OneMore((k - 1) as real, Gap(r.total, m));
    }
  }

  /** And to those over a group. */
  lemma {:induction false} CopiesAddGroup(r: Response, k: nat, rest: seq<Response>, g: bool)
    ensures var rs := Copies(r, k) + rest;
      && |Group(rs, g)| == (if r.correct == g then k else 0) + |Group(rest, g)|
      && Sum(Group(rs, g)) == (if r.correct == g then Times(k as real, r.total) else 0.0) + Sum(Group(rest, g))
  {
    var rs := Copies(r, k) + rest;
    if k == 0 {
      assert rs == rest;
    } else {
      CopiesAddGroup(r, k - 1, rest, g);
      CopiesHead(r, k, rest);
      GroupHead(rs, g, 0.0);
      OneMore((k - 1) as real, r.total);
    }
  }

  lemma CopiesAdd(r: Response, k: nat, rest: seq<Response>, g: bool, m: real)
    ensures var rs := Copies(r, k) + rest;
      && |rs| == k + |rest|
      && Sum(Totals(rs)) == Times(k as real, r.total) + Sum(Totals(rest))
      && Spread(Totals(rs), m) == Times(k as real, Gap(r.total, m)) + Spread(Totals(rest), m)
      && |Group(rs, g)| == (if r.correct == g then k else 0) + |Group(rest, g)|
      && Sum(Group(rs, g)) == (if r.correct == g then Times(k as real, r.total) else 0.0) + Sum(Group(rest, g))
  {
    CopiesAddTotals(r, k, rest, m);
    CopiesAddGroup(r, k, rest, g);
  }

  /** One right answer and 2 k + 2 wrong ones: the group means are 20 and 20 + 1 / (2 k + 2). */
  function Unnoticed(k: nat): seq<Response> {
    Copies(Response(true, 20.0), 1) + (Copies(Response(false, 20.0), 1)
    + (Copies(Response(false, 21.0), 1) + (Copies(Response(false, 40.0), k) + (Copies(Response(false, 0.0), k) + []))))
  }

  lemma UnnoticedSums(k: nat, g: bool, m: real)
    ensures var rs, n := Unnoticed(k), k as real;
      && |rs| == |Totals(rs)| == 2 * k + 3 && |Group(rs, g)| == (if g then 1 else 2 * k + 2)
      && Sum(Totals(rs)) == 40.0 * n + 61.0 && Sum(Group(rs, g)) == (if g then 20.0 else 40.0 * n + 41.0)
      && Spread(Totals(rs), m)
         == Times(n, Gap(40.0, m)) + Times(n, Gap(0.0, m)) + Gap(20.0, m) + Gap(20.0, m) + Gap(21.0, m)
  {
    var e := Copies(Response(false, 0.0), k) + [];
    var d := Copies(Response(false, 40.0), k) + e;
    var c := Copies(Response(false, 21.0), 1) + d;
    var b := Copies(Response(false, 20.0), 1) + c;
    CopiesAdd(Response(false, 0.0), k, [], g, m);
    CopiesAdd(Response(false, 40.0), k, e, g, m);
    CopiesAdd(Response(false, 21.0), 1, d, g, m);
    CopiesAdd(Response(false, 20.0), 1, c, g, m);
    CopiesAdd(Response(true, 20.0), 1, b, g, m);
    TotalsLength(Unnoticed(k));
  }

  lemma {:induction false} CopiesAre(r: Response, k: nat)
    ensures forall x :: x in Copies(r, k) ==> x == r
  {
    if k > 0 {
      CopiesAre(r, k - 1);
    }
  }

  lemma UnnoticedTotals(k: nat)
    ensures forall r :: r in Unnoticed(k) ==> 0.0 <= r.total <= 40.0
  {
    CopiesAre(Response(false, 40.0), k);
    CopiesAre(Response(false, 0.0), k);
    assert forall r :: r in Copies(Response(true, 20.0), 1) ==> r.total == 20.0;
    assert forall r :: r in Copies(Response(false, 20.0), 1) ==> r.total == 20.0;
    assert forall r :: r in Copies(Response(false, 21.0), 1) ==> r.total == 21.0;
  }

  lemma UnnoticedMeans(k: nat)
    requires k == 61
    ensures var rs := Unnoticed(k);
      && |rs| == |Totals(rs)| == 125 && TwoGroups(rs)
      && Mean(Group(rs, true)) == 20.0 && Mean(Group(rs, false)) == 2481.0 / 124.0
      && Proportion(rs) == 0.008 && Variance(Totals(rs)) == 390.407936
  {
    var rs := Unnoticed(k);
    UnnoticedSums(k, true, 20.008);
    UnnoticedSums(k, false, 20.008);
    assert Mean(Totals(rs)) == 20.008;
  }

  /** A cohort of 125 with totals of 0 to 40 in which the one who got the item right did worse over
      all, and the item is not flagged. */
  lemma UnnoticedIsNotFlagged(sqrt: real -> real, wrong: seq<real>) returns (rs: seq<Response>)
    requires IsRoot(sqrt)
    ensures |rs| == 125 && TwoGroups(rs) && forall r :: r in rs ==> 0.0 <= r.total <= 40.0
    ensures Mean(Group(rs, true)) < Mean(Group(rs, false))
    ensures NegativeDiscrimination !in Analyse(rs, sqrt, wrong)
  {
    var k: nat :| k == 61;
    rs := Unnoticed(k);
    UnnoticedMeans(k);
    UnnoticedTotals(k);
    NegativeFlagMeans(rs, sqrt, wrong);
    TooClose();
  }

  lemma TooClose()
    ensures Times(Times(0.008, 1.0 - 0.008), Gap(20.0, 2481.0 / 124.0)) < 0.0000000025 * 390.407936
  {
    assert Gap(20.0, 2481.0 / 124.0) == 1.0 / 15376.0;
  }
}
