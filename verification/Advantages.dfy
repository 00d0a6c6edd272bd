/** Group-relative and leave-one-out advantages, in exact reals. */
module Advantages {
  import opened Basics

  function SumSquares(xs: seq<real>): real {
    if xs == [] then 0.0 else xs[0] * xs[0] + SumSquares(xs[1..])
  }

  function Mean(xs: seq<real>): real
    requires xs != []
  {
    Sum(xs) / |xs| as real
  }

  function Centered(xs: seq<real>): seq<real>
    requires xs != []
  {
    seq(|xs|, i requires 0 <= i < |xs| => xs[i] - Mean(xs))
  }

  /** The population variance. */
  function Variance(xs: seq<real>): real
    requires xs != []
  {
    SumSquares(Centered(xs)) / |xs| as real
  }

  /** std is the population standard deviation: the non-negative number whose square is the variance. */
  predicate IsStd(xs: seq<real>, std: real)
    requires xs != []
  {
    std >= 0.0 && std * std == Variance(xs)
  }

  /** std is only used when the group is not empty and standardised. */
  function GroupAdvantages(rewards: seq<real>, eps: real, standardize: bool, std: real): seq<real>
    requires rewards != [] && standardize ==> std + eps != 0.0
  {
    if rewards == [] then []
    else
      var centered := Centered(rewards);
      if !standardize then centered
      else seq(|rewards|, i requires 0 <= i < |rewards| => centered[i] / (std + eps))
  }

  function RlooAdvantages(rewards: seq<real>): seq<real> {
    var g := |rewards|;
    if g <= 1 then seq(g, i => 0.0)
    else
      var total := Sum(rewards);
      seq(g, i requires 0 <= i < g => rewards[i] - (total - rewards[i]) / (g - 1) as real)
  }

  // ------------------------------------------------------------ sums

  lemma {:induction false} SumScaled(xs: seq<real>, ys: seq<real>, k: real, d: real)
    requires |xs| == |ys| && forall i :: 0 <= i < |xs| ==> ys[i] == k * xs[i] + d
    ensures Sum(ys) == k * Sum(xs) + d * |xs| as real
  {
    if xs != [] {
      SumScaled(xs[1..], ys[1..], k, d);
      ScaleStep(k, xs[0], Sum(xs[1..]), d, |xs[1..]| as real);
    }
  }

  lemma ScaleStep(k: real, x: real, s: real, d: real, m: real)
    ensures (k * x + d) + (k * s + d * m) == k * (x + s) + d * (m + 1.0)
  {
  }

  lemma {:induction false} SquaresScaled(xs: seq<real>, ys: seq<real>, k: real)
    requires |xs| == |ys| && forall i :: 0 <= i < |xs| ==> ys[i] == k * xs[i]
    ensures SumSquares(ys) == k * k * SumSquares(xs)
  {
    if xs != [] {
      SquaresScaled(xs[1..], ys[1..], k);
      SquareStep(k, xs[0], SumSquares(xs[1..]));
    }
  }

  lemma SquareStep(k: real, x: real, q: real)
    ensures (k * x) * (k * x) + k * k * q == k * k * (x * x + q)
  {
    assert (k * x) * (k * x) == k * k * (x * x);
  }

  /** The deviations from the mean cancel. */
  lemma CenteredSumsToZero(xs: seq<real>)
    requires xs != []
    ensures |Centered(xs)| == |xs| && Sum(Centered(xs)) == 0.0
  {
    SumScaled(xs, Centered(xs), 1.0, -Mean(xs));
    assert Mean(xs) * |xs| as real == Sum(xs);
  }

  // ------------------------------------------------------------ Samuelson's bound

  /** The square of a sum is at most the count times the sum of squares. */
  lemma {:induction false} CauchySum(xs: seq<real>)
    ensures Sum(xs) * Sum(xs) <= |xs| as real * SumSquares(xs)
  {
    if |xs| > 1 {
      var rest := xs[1..];
      CauchySum(rest);
      CauchyStep(Sum(rest), xs[0], SumSquares(rest), |rest|);
    }
  }

  lemma CauchyStep(s: real, x: real, q: real, m: nat)
    requires m > 0 && s * s <= m as real * q
    ensures (x + s) * (x + s) <= (m + 1) as real * (x * x + q)
  {
    var n := m as real;
    TwiceProduct(s, x, q, n);
    assert (x + s) * (x + s) == x * x + 2.0 * (s * x) + s * s;
    assert (n + 1.0) * (x * x + q) == n * (x * x) + n * q + x * x + q;
  }

  lemma TwiceProduct(s: real, x: real, q: real, n: real)
    requires n > 0.0 && s * s <= n * q
    ensures 2.0 * (s * x) <= q + n * (x * x)
  {
    SquareOfDifference(s, n * x);
    var gap := q + n * (x * x) - 2.0 * (s * x);
    assert gap * n == n * q + (n * x) * (n * x) - 2.0 * (s * (n * x));
    NonNegative(gap, n);
  }

  lemma SquareOfDifference(a: real, b: real)
    ensures a * a - 2.0 * (a * b) + b * b >= 0.0
  {
    assert (a - b) * (a - b) == a * a - 2.0 * (a * b) + b * b;
  }

  function Without(xs: seq<real>, i: nat): seq<real>
    requires i < |xs|
  {
    xs[..i] + xs[i + 1..]
  }

  lemma {:induction false} SumWithout(xs: seq<real>, i: nat)
    requires i < |xs|
    ensures Sum(xs) == xs[i] + Sum(Without(xs, i))
    ensures SumSquares(xs) == xs[i] * xs[i] + SumSquares(Without(xs, i))
  {
    if i == 0 {
      assert Without(xs, 0) == xs[1..];
    } else {
      SumWithout(xs[1..], i - 1);
      assert Without(xs, i)[0] == xs[0] && Without(xs, i)[1..] == Without(xs[1..], i - 1);
    }
  }

  /** In a group whose sum is zero, n times any square is at most n - 1 times the sum of squares. */
  lemma ZeroSumBound(cs: seq<real>, i: nat)
    requires i < |cs| && Sum(cs) == 0.0
    ensures |cs| as real * (cs[i] * cs[i]) <= (|cs| - 1) as real * SumSquares(cs)
  {
    var rest := Without(cs, i);
    SumWithout(cs, i);
    CauchySum(rest);
    var c, q, m := cs[i], SumSquares(rest), |rest| as real;
    assert Sum(rest) == -c && Sum(rest) * Sum(rest) == c * c;
    assert |rest| == |cs| - 1;
    assert m * (c * c + q) == m * (c * c) + m * q;
    assert (m + 1.0) * (c * c) == m * (c * c) + c * c;
  }

  lemma StdBelow(std: real, eps: real)
    requires std >= 0.0 && eps >= 0.0
    ensures std * std <= (std + eps) * (std + eps)
  {
    assert (std + eps) * (std + eps) == std * std + 2.0 * (std * eps) + eps * eps;
  }

  lemma PositiveSquare(s: real)
    requires s > 0.0
    ensures s * s > 0.0
  {
  }

  /** From n d <= m n v: d <= m v. */
  lemma DivideByN(n: real, m: real, v: real, d: real)
    requires n > 0.0 && n * d <= m * (n * v)
    ensures d <= m * v
  {
    Distribute(m * v, d, n);
    Regroup(m, v, n);
    assert v * (m * n) == m * (n * v);
    NonNegative(m * v - d, n);
  }

  /** From n c^2 <= m n v and v <= w = s^2: (c / s)^2 <= m. */
  lemma SquareOverScale(n: real, m: real, c: real, s: real, v: real, w: real)
    requires n >= 1.0 && m >= 0.0 && s > 0.0 && v <= w && w > 0.0
    requires w == s * s
    requires n * (c * c) <= m * (n * v)
    ensures (c / s) * (c / s) <= m
  {
    var a := c / s;
    var b, d := a * a, c * c;
    SquareOfProduct(a, s, c);
    DivideByN(n, m, v, d);
    Scaled(v, w, m);
    Bounded(b, w, m, d);
  }

  lemma Scaled(v: real, w: real, m: real)
    requires v <= w && m >= 0.0
    ensures m * v <= m * w
  {
    assert (w - v) * m >= 0.0;
  }

  lemma SquareOfProduct(a: real, s: real, c: real)
    requires a * s == c
    ensures (a * a) * (s * s) == c * c
  {
    calc {
      (a * a) * (s * s);
      (a * s) * (a * s);
      c * (a * s);
      c * c;
    }
  }

  lemma Bounded(b: real, w: real, m: real, d: real)
    requires w > 0.0 && b * w == d && d <= m * w
    ensures b <= m
  {
    Distribute(m, b, w);
    NonNegative(m - b, w);
  }

  lemma Regroup(u: real, q: real, w: real)
    ensures u * q * w == q * (u * w)
  {
  }

  lemma Distribute(n: real, x: real, w: real)
    ensures (n - x) * w == n * w - x * w
  {
  }

  /** From q = n std^2 and std <= s: q / s^2 <= n, with k the reciprocal of s. */
  lemma SumOverScale(n: real, q: real, s: real, std: real, k: real)
    requires n >= 0.0 && s > 0.0 && std * std <= s * s
    requires q == n * (std * std) && k * s == 1.0
    ensures k * k * q <= n
  {
    var v, w := std * std, s * s;
    assert n * (w - v) >= 0.0;
    assert n * (w - v) == n * w - n * v;
    SquareOfProduct(k, s, 1.0);
    PositiveSquare(s);
    Regroup(k * k, q, w);
    var x := k * k * q;
    Distribute(n, x, w);
    NonNegative(n - x, w);
  }

  /** Dividing every deviation by s is multiplying by its reciprocal. */
  lemma Divided(rewards: seq<real>, eps: real, std: real, k: real)
    requires rewards != [] && std + eps > 0.0 && k == 1.0 / (std + eps)
    ensures var a, cs := GroupAdvantages(rewards, eps, true, std), Centered(rewards);
            && |a| == |cs| == |rewards|
            && (forall j :: 0 <= j < |cs| ==> a[j] == cs[j] / (std + eps))
            && SumSquares(a) == k * k * SumSquares(cs)
            && Sum(a) == 0.0
  {
    var a, cs, s := GroupAdvantages(rewards, eps, true, std), Centered(rewards), std + eps;
    assert forall j :: 0 <= j < |cs| ==> a[j] == cs[j] / s;
    CenteredSumsToZero(rewards);
    hide GroupAdvantages, Centered, Sum, SumSquares;
    ScaledBy(cs, a, s, k);
  }

  lemma ScaledBy(cs: seq<real>, a: seq<real>, s: real, k: real)
    requires |a| == |cs| && s > 0.0 && k == 1.0 / s
    requires forall j :: 0 <= j < |cs| ==> a[j] == cs[j] / s
    ensures SumSquares(a) == k * k * SumSquares(cs) && Sum(a) == k * Sum(cs)
  {
    hide SumSquares, Sum;
    forall j | 0 <= j < |cs| ensures a[j] == k * cs[j] {
      Reciprocal(cs[j], s, k);
    }
    SquaresScaled(cs, a, k);
    SumTimes(cs, a, k);
  }

  lemma Reciprocal(c: real, s: real, k: real)
    requires s > 0.0 && k == 1.0 / s
    ensures c / s == k * c
  {
    assert (c / s) * s == c && k * s == 1.0;
    assert (k * c) * s == (k * s) * c;
    Cancel(c / s, k * c, s);
  }

  /**
   Samuelson's bound: each standardised advantage squared is at most n - 1, and their
   squares sum to at most n; eps only makes them smaller.
   */
  lemma AdvantagesBounded(rewards: seq<real>, eps: real, std: real, i: nat)
    requires i < |rewards| && eps >= 0.0 && std + eps > 0.0 && IsStd(rewards, std)
    ensures var a := GroupAdvantages(rewards, eps, true, std);
            && |a| == |rewards|
            && a[i] * a[i] <= (|rewards| - 1) as real
            && SumSquares(a) <= |rewards| as real
            && Sum(a) == 0.0
  {
    hide Centered, SumSquares, Sum, Variance, GroupAdvantages;
    var n, s, k := |rewards| as real, std + eps, 1.0 / (std + eps);
    var cs := Centered(rewards);
    CenteredSumsToZero(rewards);
    ZeroSumBound(cs, i);
    StdBelow(std, eps);
    Divided(rewards, eps, std, k);
    VarianceTimes(rewards, std);
    PositiveSquare(s);
    SquareOverScale(n, (|rewards| - 1) as real, cs[i], s, std * std, s * s);
    assert k * s == 1.0;
    SumOverScale(n, SumSquares(cs), s, std, k);
  }

  lemma VarianceTimes(rewards: seq<real>, std: real)
    requires rewards != [] && IsStd(rewards, std)
    ensures SumSquares(Centered(rewards)) == |rewards| as real * (std * std)
  {
    assert Variance(rewards) * |rewards| as real == SumSquares(Centered(rewards));
  }

  // ------------------------------------------------------------ leave-one-out

  /** n / (n - 1). */
  function RlooFactor(n: nat): real
    requires n >= 2
  {
    n as real / (n - 1) as real
  }

  /** RLOO is the centred reward times n / (n - 1). */
  lemma RlooIsScaledCentering(rewards: seq<real>)
    requires |rewards| >= 2
    ensures |RlooAdvantages(rewards)| == |rewards|
    ensures forall i :: 0 <= i < |rewards| ==>
              RlooAdvantages(rewards)[i] == RlooFactor(|rewards|) * Centered(rewards)[i]
  {
    forall i | 0 <= i < |rewards|
      ensures RlooAdvantages(rewards)[i] == RlooFactor(|rewards|) * Centered(rewards)[i]
    {
      RlooAt(rewards, i);
    }
  }

  lemma RlooSumsToZero(rewards: seq<real>)
    requires |rewards| >= 2
    ensures Sum(RlooAdvantages(rewards)) == 0.0
  {
    RlooIsScaledCentering(rewards);
    CenteredSumsToZero(rewards);
    hide *;
    SumTimes(Centered(rewards), RlooAdvantages(rewards), RlooFactor(|rewards|));
  }

  lemma SumTimes(xs: seq<real>, ys: seq<real>, k: real)
    requires |xs| == |ys| && forall i :: 0 <= i < |xs| ==> ys[i] == k * xs[i]
    ensures Sum(ys) == k * Sum(xs)
  {
    SumScaled(xs, ys, k, 0.0);
  }

  lemma RlooAt(rewards: seq<real>, i: nat)
    requires i < |rewards| && |rewards| >= 2
    ensures RlooAdvantages(rewards)[i] == RlooFactor(|rewards|) * Centered(rewards)[i]
  {
    hide Sum;
    var r, total, n, m := rewards[i], Sum(rewards), |rewards| as real, (|rewards| - 1) as real;
    assert RlooAdvantages(rewards)[i] == r - (total - r) / m;
    assert Mean(rewards) == total / n;
    assert Centered(rewards)[i] == r - Mean(rewards);
    LeaveOneOut(r, total, n, m);
  }

  lemma LeaveOneOut(r: real, total: real, n: real, m: real)
    requires n >= 2.0 && m == n - 1.0
    ensures r - (total - r) / m == n / m * (r - total / n)
  {
    var b, mean, k := (total - r) / m, total / n, n / m;
    assert b * m == total - r && mean * n == total && k * m == n;
    var left, right := r - b, k * (r - mean);
    assert left * m == r * m - b * m;
    assert right * m == (k * m) * (r - mean);
    assert (k * m) * (r - mean) == n * r - n * mean;
    Cancel(left, right, m);
  }

  /** Each leave-one-out advantage compares the reward with the mean of the others. */
  lemma RlooComparesWithSiblings(rewards: seq<real>, i: nat)
    requires |rewards| >= 2 && i < |rewards|
    ensures RlooAdvantages(rewards)[i] == rewards[i] - Mean(Without(rewards, i))
  {
    SumWithout(rewards, i);
  }

  /** A flat group adds no gradient, under either estimator. */
  lemma FlatGroup(rewards: seq<real>, eps: real, std: real, i: nat)
    requires i < |rewards| && eps > 0.0 && IsStd(rewards, std)
    requires forall j :: 0 <= j < |rewards| ==> rewards[j] == rewards[0]
    ensures GroupAdvantages(rewards, eps, true, std)[i] == 0.0
    ensures RlooAdvantages(rewards)[i] == 0.0
  {
    SumScaled(rewards, rewards, 0.0, rewards[0]);
    var n := |rewards| as real;
    assert Sum(rewards) == rewards[0] * n;
    assert Mean(rewards) * n == Sum(rewards);
    Cancel(Mean(rewards), rewards[0], n);
    assert Centered(rewards)[i] == 0.0;
    if |rewards| >= 2 {
      RlooIsScaledCentering(rewards);
    }
  }

  /** Advantages keep the differences between rewards: as they are when raw, divided by std + eps when standardised. */
  lemma AdvantagesKeepDifferences(rewards: seq<real>, eps: real, standardize: bool, std: real, i: nat, j: nat)
    requires i < |rewards| && j < |rewards| && std + eps > 0.0
    ensures var a := GroupAdvantages(rewards, eps, standardize, std);
            && |a| == |rewards|
            && (standardize ==> Times(a[i] - a[j], std + eps) == rewards[i] - rewards[j])
            && (!standardize ==> a[i] - a[j] == rewards[i] - rewards[j])
            && Sum(a) == 0.0
  {
    var s, cs, a := std + eps, Centered(rewards), GroupAdvantages(rewards, eps, standardize, std);
    assert !standardize ==> a == cs;
    hide GroupAdvantages, Centered, Sum, SumSquares, Mean, Times;
    CenteredSumsToZero(rewards);
    CenteredDifference(rewards, i, j);
    if standardize {
      QuotientsKeepDifferences(rewards, eps, std, i, j);
    }
  }

  lemma QuotientsKeepDifferences(rewards: seq<real>, eps: real, std: real, i: nat, j: nat)
    requires i < |rewards| && j < |rewards| && std + eps > 0.0
    ensures var a, cs := GroupAdvantages(rewards, eps, true, std), Centered(rewards);
            |a| == |rewards| && Times(a[i] - a[j], std + eps) == cs[i] - cs[j] && Sum(a) == 0.0
  {
    var s, cs, k := std + eps, Centered(rewards), 1.0 / (std + eps);
    hide GroupAdvantages, Centered, Sum, SumSquares, Mean, Times;
    Divided(rewards, eps, std, k);
    Quotients(cs[i], cs[j], s);
  }

  lemma CenteredDifference(rewards: seq<real>, i: nat, j: nat)
    requires i < |rewards| && j < |rewards|
    ensures Centered(rewards)[i] - Centered(rewards)[j] == rewards[i] - rewards[j]
  {
  }

  lemma Quotients(x: real, y: real, s: real)
    requires s > 0.0
    ensures Times(x / s - y / s, s) == x - y
  {
    assert (x / s) * s == x && (y / s) * s == y;
  }

  /** A group of one has no siblings to be compared with, and an empty group no advantages. */
  lemma RlooWithoutSiblings(rewards: seq<real>, eps: real, standardize: bool, std: real)
    requires |rewards| <= 1
    ensures GroupAdvantages([], eps, standardize, std) == []
    ensures |RlooAdvantages(rewards)| == |rewards|
    ensures forall i :: 0 <= i < |rewards| ==> RlooAdvantages(rewards)[i] == 0.0
  {
  }
}
