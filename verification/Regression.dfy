/** Ordinary least squares over real arithmetic. */
module Regression {
  import opened Sums

  /** The denominator of the slope is n times the squared deviation of the xs, so it vanishes only on constant xs. */
  lemma Denominator(xs: seq<real>)
    requires xs != []
    ensures (|xs| as real) * Dot(xs, xs) - Sum(xs) * Sum(xs) >= 0.0
    ensures (|xs| as real) * Dot(xs, xs) - Sum(xs) * Sum(xs) == 0.0 <==> AllEqual(xs)
  {
    hide Times, Dot, Sum, SquaredDev, Mean;
    var n, m := |xs| as real, Mean(xs);
    MeanTimesCount(xs);
    SquaredDevMoments(xs, m);
    SquaredDevZero(xs, m);
    DenominatorAlgebra(n, Sum(xs), Dot(xs, xs), m, SquaredDev(xs, m));
    if AllEqual(xs) {
      ConstantMean(xs);
    }
  }

  lemma DenominatorAlgebra(n: real, s: real, q: real, m: real, d: real)
    requires n > 0.0 && n * m == s && d >= 0.0
    requires d == q - 2.0 * (m * s) + m * (m * n)
    ensures n * q - s * s == n * d >= 0.0
    ensures n * q - s * s == 0.0 <==> d == 0.0
  {
    assert m * (m * n) == m * s;
    assert n * (m * s) == s * s;
    assert n * d == n * q - n * (m * s);
    if d > 0.0 { TimesPositive(n, d); }
  }

  lemma ConstantMean(xs: seq<real>)
    requires xs != [] && AllEqual(xs)
    ensures Mean(xs) == xs[0]
  {
    ConstantSum(xs, xs[0]);
    var n := |xs| as real;
    assert (n * xs[0]) / n == xs[0];
  }

  lemma {:induction false} ConstantSum(xs: seq<real>, c: real)
    requires forall i :: 0 <= i < |xs| ==> xs[i] == c
    ensures Sum(xs) == (|xs| as real) * c
    ensures Dot(xs, xs) == c * (c * (|xs| as real))
  {
    if xs != [] {
      ConstantSum(xs[..|xs|-1], c);
    }
  }

  /** How much worse the line (a, b) is than a line (s, t) that satisfies the normal equations. */
  lemma Excess(n: real, sx: real, sy: real, sxy: real, sxx: real, syy: real,
               s: real, t: real, a: real, b: real)
    requires t * n == sy - s * sx
    requires s * sxx + t * sx == sxy
    ensures Quadratic(n, sx, sy, sxy, sxx, syy, a, b) - Quadratic(n, sx, sy, sxy, sxx, syy, s, t)
         == (s - a) * ((s - a) * sxx) + 2.0 * ((s - a) * ((t - b) * sx)) + (t - b) * ((t - b) * n)
  {
    var u, v := s - a, t - b;
    assert u * sxy == u * (s * sxx) + u * (t * sx);
    assert v * sy == v * (t * n) + v * (s * sx);
  }

  /** The excess is non-negative and vanishes only at u = v = 0: n times it is a sum of two squares. */
  lemma ExcessSign(n: real, sx: real, sxx: real, u: real, v: real)
    requires n > 0.0 && n * sxx - sx * sx > 0.0
    ensures u * (u * sxx) + 2.0 * (u * (v * sx)) + v * (v * n) >= 0.0
    ensures u * (u * sxx) + 2.0 * (u * (v * sx)) + v * (v * n) == 0.0 ==> u == 0.0 && v == 0.0
  {
    var e := u * (u * sxx) + 2.0 * (u * (v * sx)) + v * (v * n);
    var d := n * sxx - sx * sx;
    var w := u * sx + n * v;
    SumOfSquares(n, sx, sxx, u, v);
    SquareNonNegative(u);
    SquareNonNegative(w);
    Scaled(n, e);
    Scaled(d, Square(u));
    if e == 0.0 {
      assert u == 0.0 && w == 0.0;
      NoNullProduct(n, v);
    }
  }

  lemma SumOfSquares(n: real, sx: real, sxx: real, u: real, v: real)
    ensures n * (u * (u * sxx) + 2.0 * (u * (v * sx)) + v * (v * n))
         == (n * sxx - sx * sx) * Square(u) + Square(u * sx + n * v)
  {
  }

  lemma Scaled(k: real, x: real)
    requires k > 0.0
    ensures k * x >= 0.0 <==> x >= 0.0
    ensures k * x == 0.0 <==> x == 0.0
  {
    if x > 0.0 {
      TimesPositive(k, x);
    } else if x < 0.0 {
      TimesPositive(k, -x);
    }
  }

  lemma NoNullProduct(n: real, v: real)
    requires n > 0.0 && n * v == 0.0
    ensures v == 0.0
  {
    Scaled(n, v);
  }

  /** With xs not all equal, the fitted line is the one strict minimiser of the squared error. */
  lemma FitIsBest(xs: seq<real>, ys: seq<real>, s: real, t: real, a: real, b: real)
    requires |xs| == |ys| && xs != [] && !AllEqual(xs)
    requires s * ((|xs| as real) * Dot(xs, xs) - Sum(xs) * Sum(xs)) == (|xs| as real) * Dot(xs, ys) - Sum(xs) * Sum(ys)
    requires t * (|xs| as real) == Sum(ys) - s * Sum(xs)
    ensures SquaredError(xs, ys, s, t) <= SquaredError(xs, ys, a, b)
    ensures SquaredError(xs, ys, s, t) == SquaredError(xs, ys, a, b) ==> s == a && t == b
  {
    hide Quadratic, Times, SquaredError;
    Denominator(xs);
    SquaredErrorMoments(xs, ys, s, t);
    SquaredErrorMoments(xs, ys, a, b);
    BestLine(|xs| as real, Sum(xs), Sum(ys), Dot(xs, ys), Dot(xs, xs), Dot(ys, ys), s, t, a, b);
  }

  lemma BestLine(n: real, sx: real, sy: real, sxy: real, sxx: real, syy: real, s: real, t: real, a: real, b: real)
    requires n > 0.0 && n * sxx - sx * sx > 0.0
    requires s * (n * sxx - sx * sx) == n * sxy - sx * sy
    requires t * n == sy - s * sx
    ensures Quadratic(n, sx, sy, sxy, sxx, syy, s, t) <= Quadratic(n, sx, sy, sxy, sxx, syy, a, b)
    ensures Quadratic(n, sx, sy, sxy, sxx, syy, s, t) == Quadratic(n, sx, sy, sxy, sxx, syy, a, b) ==> s == a && t == b
  {
    hide Quadratic;
    NormalEquation(n, sx, sy, sxy, sxx, s, t);
    Excess(n, sx, sy, sxy, sxx, syy, s, t, a, b);
    ExcessSign(n, sx, sxx, s - a, t - b);
  }

  lemma NormalEquation(n: real, sx: real, sy: real, sxy: real, sxx: real, s: real, t: real)
    requires n > 0.0
    requires s * (n * sxx - sx * sx) == n * sxy - sx * sy
    requires t * n == sy - s * sx
    ensures s * sxx + t * sx == sxy
  {
    var gap := s * sxx + t * sx - sxy;
    assert n * gap == s * (n * sxx) + (t * n) * sx - n * sxy;
    assert (t * n) * sx == sy * sx - s * (sx * sx);
    Scaled(n, gap);
  }

  function LineAt(a: real, b: real, x: real): real {
    a * x + b
  }

  /** With all xs equal no slope helps, and the mean of the ys is a best constant. */
  lemma FlatIsBest(xs: seq<real>, ys: seq<real>, a: real, b: real)
    requires |xs| == |ys| && xs != [] && AllEqual(xs)
    ensures SquaredError(xs, ys, 0.0, Mean(ys)) <= SquaredError(xs, ys, a, b)
  {
    hide Times, SquaredError, SquaredDev, Mean, LineAt;
    ConstantLine(xs, ys, a, b, LineAt(a, b, xs[0]));
    FlatTotal(xs, ys, Mean(ys));
    MeanIsBest(ys, LineAt(a, b, xs[0]));
  }

  lemma MeanIsBest(ys: seq<real>, h: real)
    requires ys != []
    ensures SquaredDev(ys, Mean(ys)) <= SquaredDev(ys, h)
  {
    hide Times;
    MeanTimesCount(ys);
    SquaredDevMoments(ys, h);
    SquaredDevMoments(ys, Mean(ys));
    MeanAlgebra(|ys| as real, Sum(ys), Dot(ys, ys), Mean(ys), h);
  }

  lemma MeanAlgebra(n: real, s: real, q: real, m: real, h: real)
    requires n > 0.0 && n * m == s
    ensures q - 2.0 * (m * s) + m * (m * n) <= q - 2.0 * (h * s) + h * (h * n)
  {
    assert m * s == m * (m * n) && h * s == h * (m * n);
    assert n * Square(h - m) == h * (h * n) - 2.0 * (h * (m * n)) + m * (m * n);
    SquareNonNegative(h - m);
    Scaled(n, Square(h - m));
  }

  lemma {:induction false} ConstantLine(xs: seq<real>, ys: seq<real>, a: real, b: real, h: real)
    requires |xs| == |ys| && forall i :: 0 <= i < |xs| ==> LineAt(a, b, xs[i]) == h
    ensures SquaredError(xs, ys, a, b) == SquaredDev(ys, h)
  {
    if xs != [] {
      ConstantLine(xs[..|xs|-1], ys[..|xs|-1], a, b, h);
      assert LineAt(a, b, xs[|xs|-1]) == h;
    }
  }

  lemma Ratio(res: real, tot: real)
    requires 0.0 <= res <= tot && tot > 0.0
    ensures 0.0 <= 1.0 - res / tot <= 1.0
    ensures 1.0 - res / tot == 1.0 <==> res == 0.0
    ensures (1.0 - res / tot) * tot == tot - res
  {
    var q := res / tot;
    assert q * tot == res;
    Scaled(tot, q);
    Scaled(tot, 1.0 - q);
  }

  lemma FlatTotal(xs: seq<real>, ys: seq<real>, m: real)
    requires |xs| == |ys|
    ensures SquaredError(xs, ys, 0.0, m) == SquaredDev(ys, m)
  {
    ConstantLine(xs, ys, 0.0, m, m);
  }

  lemma MomentsStep(xs: seq<real>, ys: seq<real>, i: nat)
    requires i < |xs| == |ys|
    ensures Sum(xs[..i+1]) == Sum(xs[..i]) + xs[i] && Sum(ys[..i+1]) == Sum(ys[..i]) + ys[i]
    ensures Dot(xs[..i+1], ys[..i+1]) == Dot(xs[..i], ys[..i]) + xs[i] * ys[i]
    ensures Dot(xs[..i+1], xs[..i+1]) == Dot(xs[..i], xs[..i]) + xs[i] * xs[i]
  {
    PrefixTwice(xs, i);
    PrefixTwice(ys, i);
  }

  /** The first loop: the four sums the fit needs. */
  method SumMoments(xs: seq<real>, ys: seq<real>) returns (sumX: real, sumY: real, sumXY: real, sumX2: real)
    requires |xs| == |ys|
    ensures sumX == Sum(xs) && sumY == Sum(ys) && sumXY == Dot(xs, ys) && sumX2 == Dot(xs, xs)
  {
    hide Times, Dot, Sum;
    sumX, sumY, sumXY, sumX2 := 0.0, 0.0, 0.0, 0.0;
    EmptySums(xs, ys);
    for i := 0 to |xs|
      invariant sumX == Sum(xs[..i]) && sumY == Sum(ys[..i])
      invariant sumXY == Dot(xs[..i], ys[..i]) && sumX2 == Dot(xs[..i], xs[..i])
    {
      MomentsStep(xs, ys, i);
      sumX := sumX + xs[i];
      sumY := sumY + ys[i];
      sumXY := sumXY + xs[i] * ys[i];
      sumX2 := sumX2 + xs[i] * xs[i];
    }
    assert xs[..|xs|] == xs && ys[..|xs|] == ys;
  }

  lemma EmptySums(xs: seq<real>, ys: seq<real>)
    requires |xs| == |ys|
    ensures Sum(xs[..0]) == Sum(ys[..0]) == Dot(xs[..0], ys[..0]) == Dot(xs[..0], xs[..0]) == 0.0
    ensures forall a, b :: SquaredError(xs[..0], ys[..0], a, b) == 0.0
    ensures forall c :: SquaredDev(ys[..0], c) == 0.0
  {
  }

  lemma ErrorStep(xs: seq<real>, ys: seq<real>, i: nat, slope: real, intercept: real, meanY: real)
    requires i < |xs| == |ys|
    ensures var e := ys[i] - (slope * xs[i] + intercept);
            SquaredError(xs[..i+1], ys[..i+1], slope, intercept)
                == SquaredError(xs[..i], ys[..i], slope, intercept) + e * e
    ensures SquaredDev(ys[..i+1], meanY) == SquaredDev(ys[..i], meanY) + (ys[i] - meanY) * (ys[i] - meanY)
  {
    PrefixTwice(xs, i);
    PrefixTwice(ys, i);
  }

  /**
    Fits a line. Whatever the points, the result is a best line; unless all xs coincide it is the only
    best line, and R² is the explained share of the variance, 1 exactly on a perfect fit.
  */
  method LinearRegression(xs: seq<real>, ys: seq<real>) returns (slope: real, intercept: real, rSquared: real)
    ensures |xs| < 2 || |xs| != |ys| ==> slope == 0.0 && intercept == 0.0 && rSquared == 0.0
    ensures |xs| == |ys| >= 2 ==>
              forall a, b :: SquaredError(xs, ys, slope, intercept) <= SquaredError(xs, ys, a, b)
    ensures |xs| == |ys| >= 2 && AllEqual(xs) ==>
              slope == 0.0 && intercept == Mean(ys) && rSquared == 0.0
    ensures |xs| == |ys| >= 2 && !AllEqual(xs) ==>
              forall a, b :: SquaredError(xs, ys, slope, intercept) == SquaredError(xs, ys, a, b)
                             ==> slope == a && intercept == b
    ensures |xs| == |ys| >= 2 && !AllEqual(xs) ==>
              && 0.0 <= rSquared <= 1.0
              && (rSquared == 1.0 <==> OnLine(xs, ys, slope, intercept))
              && rSquared * SquaredDev(ys, Mean(ys))
                 == SquaredDev(ys, Mean(ys)) - SquaredError(xs, ys, slope, intercept)
  {
    hide Times, Dot, Sum, SquaredDev, SquaredError, Quadratic;
    var n := |xs| as real;
    if n < 2.0 || |xs| != |ys| {
      return 0.0, 0.0, 0.0;
    }
    var sumX, sumY, sumXY, sumX2 := SumMoments(xs, ys);

    var denom := n * sumX2 - sumX * sumX;
    Denominator(xs);
    if denom == 0.0 {
      forall a, b ensures SquaredError(xs, ys, 0.0, Mean(ys)) <= SquaredError(xs, ys, a, b) {
        FlatIsBest(xs, ys, a, b);
      }
      return 0.0, sumY / n, 0.0;
    }

    slope := (n * sumXY - sumX * sumY) / denom;
    intercept := (sumY - slope * sumX) / n;
    forall a, b
      ensures SquaredError(xs, ys, slope, intercept) <= SquaredError(xs, ys, a, b)
      ensures SquaredError(xs, ys, slope, intercept) == SquaredError(xs, ys, a, b) ==> slope == a && intercept == b
    {
      FitIsBest(xs, ys, slope, intercept, a, b);
    }
    FlatTotal(xs, ys, Mean(ys));
    rSquared := Explained(xs, ys, slope, intercept, sumY / n);
  }

  /** The second loop: the share of the variance of the ys that the line explains. */
  method Explained(xs: seq<real>, ys: seq<real>, slope: real, intercept: real, meanY: real) returns (rSquared: real)
    requires |xs| == |ys|
    requires SquaredError(xs, ys, slope, intercept) <= SquaredDev(ys, meanY)
    ensures 0.0 <= rSquared <= 1.0
    ensures rSquared == 1.0 <==> OnLine(xs, ys, slope, intercept)
    ensures rSquared * SquaredDev(ys, meanY) == SquaredDev(ys, meanY) - SquaredError(xs, ys, slope, intercept)
  {
    hide Times, SquaredError, SquaredDev;
    var ssRes, ssTot := 0.0, 0.0;
    EmptySums(xs, ys);
    for i := 0 to |xs|
      invariant ssRes == SquaredError(xs[..i], ys[..i], slope, intercept)
      invariant ssTot == SquaredDev(ys[..i], meanY)
    {
      ErrorStep(xs, ys, i, slope, intercept, meanY);
      var predicted := slope * xs[i] + intercept;
      ssRes := ssRes + (ys[i] - predicted) * (ys[i] - predicted);
      ssTot := ssTot + (ys[i] - meanY) * (ys[i] - meanY);
    }
    assert xs[..|xs|] == xs && ys[..|xs|] == ys;
    SquaredErrorZero(xs, ys, slope, intercept);
    if ssTot == 0.0 {
      rSquared := 1.0;
    } else {
      Ratio(ssRes, ssTot);
      rSquared := 1.0 - ssRes / ssTot;
    }
  }
}
