/** Finite sums of reals, taken from the front of a sequence as an accumulating loop takes them. */
module Sums {

  /** A product under a name of its own, so that a sum of products can be handled without expanding them. */
  function Times(x: real, y: real): real {
    x * y
  }

  function Square(x: real): real {
    Times(x, x)
  }

  function Sum(s: seq<real>): real {
    if s == [] then 0.0 else Sum(s[..|s|-1]) + s[|s|-1]
  }

  function Dot(xs: seq<real>, ys: seq<real>): real
    requires |xs| == |ys|
  {
    if xs == [] then 0.0 else Dot(xs[..|xs|-1], ys[..|xs|-1]) + Times(xs[|xs|-1], ys[|xs|-1])
  }

  function Mean(s: seq<real>): real
    requires s != []
  {
    Sum(s) / (|s| as real)
  }

  /** The sum of squared deviations of s from c. */
  function SquaredDev(s: seq<real>, c: real): real {
    if s == [] then 0.0 else SquaredDev(s[..|s|-1], c) + Square(s[|s|-1] - c)
  }

  /** The squared error of the line y = slope * x + intercept over the points (xs[i], ys[i]). */
  function SquaredError(xs: seq<real>, ys: seq<real>, slope: real, intercept: real): real
    requires |xs| == |ys|
  {
    if xs == [] then 0.0
    else SquaredError(xs[..|xs|-1], ys[..|xs|-1], slope, intercept)
         + Square(Residual(xs[|xs|-1], ys[|xs|-1], slope, intercept))
  }

  /** How far the point (x, y) lies above the line. */
  function Residual(x: real, y: real, slope: real, intercept: real): real {
    y - (slope * x + intercept)
  }

  ghost predicate OnLine(xs: seq<real>, ys: seq<real>, slope: real, intercept: real)
    requires |xs| == |ys|
  {
    forall i :: 0 <= i < |xs| ==> ys[i] == slope * xs[i] + intercept
  }

  ghost predicate AllEqual(xs: seq<real>) {
    forall i, j :: 0 <= i < |xs| && 0 <= j < |xs| ==> xs[i] == xs[j]
  }

  lemma MeanTimesCount(s: seq<real>)
    requires s != []
    ensures (|s| as real) * Mean(s) == Sum(s)
  {
  }

  lemma PrefixTwice(s: seq<real>, i: nat)
    requires i < |s|
    ensures s[..i+1][..i] == s[..i] && |s[..i+1]| == i + 1 && s[..i+1][i] == s[i]
  {
  }

  lemma TimesPositive(x: real, y: real)
    requires x > 0.0 && y > 0.0
    ensures Times(x, y) > 0.0
  {
  }

  lemma TimesNegated(x: real, y: real)
    ensures Times(-x, -y) == Times(x, y)
    ensures Times(0.0, y) == 0.0
  {
  }

  lemma SquareNonNegative(x: real)
    ensures Square(x) >= 0.0
    ensures Square(x) == 0.0 <==> x == 0.0
  {
    hide Times;
    TimesNegated(x, x);
    if x > 0.0 {
      TimesPositive(x, x);
    } else if x < 0.0 {
      TimesPositive(-x, -x);
    }
  }

  /** A squared error is never negative, and vanishes exactly when every point lies on the line. */
  lemma {:induction false} SquaredErrorZero(xs: seq<real>, ys: seq<real>, slope: real, intercept: real)
    requires |xs| == |ys|
    ensures SquaredError(xs, ys, slope, intercept) >= 0.0
    ensures SquaredError(xs, ys, slope, intercept) == 0.0 <==> OnLine(xs, ys, slope, intercept)
  {
    if xs != [] {
      var n := |xs| - 1;
      SquaredErrorZero(xs[..n], ys[..n], slope, intercept);
      SquareNonNegative(Residual(xs[n], ys[n], slope, intercept));
      OnLineSplits(xs, ys, slope, intercept);
      hide OnLine, Square, Residual;
    }
  }

  lemma OnLineSplits(xs: seq<real>, ys: seq<real>, slope: real, intercept: real)
    requires |xs| == |ys| && xs != []
    ensures var n := |xs| - 1;
            OnLine(xs, ys, slope, intercept)
            <==> OnLine(xs[..n], ys[..n], slope, intercept) && Residual(xs[n], ys[n], slope, intercept) == 0.0
  {
    var n := |xs| - 1;
    if OnLine(xs[..n], ys[..n], slope, intercept) && ys[n] == slope * xs[n] + intercept {
      forall i | 0 <= i < |xs| ensures ys[i] == slope * xs[i] + intercept {
        assert i < n ==> ys[..n][i] == slope * xs[..n][i] + intercept;
      }
    }
    if OnLine(xs, ys, slope, intercept) {
      forall i | 0 <= i < n ensures ys[..n][i] == slope * xs[..n][i] + intercept {
        assert ys[i] == slope * xs[i] + intercept;
      }
    }
  }

  /** The value of the squared error written out in the six moments of the points. */
  function Quadratic(n: real, sx: real, sy: real, sxy: real, sxx: real, syy: real, a: real, b: real): real {
    syy - 2.0 * (a * sxy) - 2.0 * (b * sy) + a * (a * sxx) + 2.0 * (a * (b * sx)) + b * (b * n)
  }

  lemma QuadraticStep(n: real, sx: real, sy: real, sxy: real, sxx: real, syy: real,
                      n': real, sx': real, sy': real, sxy': real, sxx': real, syy': real,
                      a: real, b: real, x: real, y: real)
    requires n' == n + 1.0 && sx' == sx + x && sy' == sy + y
    requires sxy' == sxy + Times(x, y) && sxx' == sxx + Times(x, x) && syy' == syy + Times(y, y)
    ensures Quadratic(n', sx', sy', sxy', sxx', syy', a, b)
         == Quadratic(n, sx, sy, sxy, sxx, syy, a, b) + Square(Residual(x, y, a, b))
  {
  }

  lemma {:induction false} SquaredErrorMoments(xs: seq<real>, ys: seq<real>, a: real, b: real)
    requires |xs| == |ys|
    ensures SquaredError(xs, ys, a, b)
         == Quadratic(|xs| as real, Sum(xs), Sum(ys), Dot(xs, ys), Dot(xs, xs), Dot(ys, ys), a, b)
  {
    if xs == [] {
      EmptyQuadratic(a, b);
    } else {
      hide Quadratic, Square, Times, Residual;
      var n := |xs| - 1;
      var x, y := xs[..n], ys[..n];
      SquaredErrorMoments(x, y, a, b);
      QuadraticStep(n as real, Sum(x), Sum(y), Dot(x, y), Dot(x, x), Dot(y, y),
                    |xs| as real, Sum(xs), Sum(ys), Dot(xs, ys), Dot(xs, xs), Dot(ys, ys), a, b, xs[n], ys[n]);
    }
  }

  lemma EmptyQuadratic(a: real, b: real)
    ensures Quadratic(0.0, 0.0, 0.0, 0.0, 0.0, 0.0, a, b) == 0.0
  {
  }

  lemma {:induction false} SquaredDevIsFlatLine(s: seq<real>, c: real)
    ensures SquaredDev(s, c) == SquaredError(s, s, 0.0, c)
  {
    if s != [] {
      SquaredDevIsFlatLine(s[..|s|-1], c);
    }
  }

  lemma SquaredDevMoments(s: seq<real>, c: real)
    ensures SquaredDev(s, c) == Dot(s, s) - 2.0 * (c * Sum(s)) + c * (c * (|s| as real))
  {
    SquaredDevIsFlatLine(s, c);
    SquaredErrorMoments(s, s, 0.0, c);
  }

  lemma SquaredDevZero(s: seq<real>, c: real)
    ensures SquaredDev(s, c) >= 0.0
    ensures SquaredDev(s, c) == 0.0 <==> forall i :: 0 <= i < |s| ==> s[i] == c
  {
    SquaredDevIsFlatLine(s, c);
    SquaredErrorZero(s, s, 0.0, c);
    assert OnLine(s, s, 0.0, c) <==> forall i :: 0 <= i < |s| ==> s[i] == c;
  }

  // ---- order independence ----

  lemma {:induction false} SumRemove(s: seq<real>, k: nat)
    requires k < |s|
    ensures Sum(s) == Sum(s[..k] + s[k+1..]) + s[k]
    ensures Dot(s, s) == Dot(s[..k] + s[k+1..], s[..k] + s[k+1..]) + Square(s[k])
  {
    hide Times;
    var n := |s| - 1;
    var rest := s[..k] + s[k+1..];
    if k == n {
      assert rest == s[..n];
    } else {
      var init := s[..n];
      SumRemove(init, k);
      assert rest[..|rest|-1] == init[..k] + init[k+1..];
      assert rest[|rest|-1] == s[n];
    }
  }

  lemma RemoveFromMultiset(s: seq<real>, k: nat)
    requires k < |s|
    ensures multiset(s[..k] + s[k+1..]) == multiset(s) - multiset{s[k]}
  {
    assert s == s[..k] + [s[k]] + s[k+1..];
  }

  lemma {:induction false} SumPermutation(a: seq<real>, b: seq<real>)
    requires multiset(a) == multiset(b)
    ensures |a| == |b| && Sum(a) == Sum(b) && Dot(a, a) == Dot(b, b)
  {
    hide Times;
    assert |a| == |multiset(a)| && |b| == |multiset(b)|;
    if a != [] {
      var n := |a| - 1;
      assert a == a[..n] + [a[n]];
      assert a[n] in multiset(b);
      var k :| 0 <= k < |b| && b[k] == a[n];
      var rest := b[..k] + b[k+1..];
      assert b == b[..k] + [b[k]] + b[k+1..];
      RemoveFromMultiset(a, n);
      RemoveFromMultiset(b, k);
      assert a[..n] + a[n+1..] == a[..n];
      SumPermutation(a[..n], rest);
      SumRemove(b, k);
    }
  }
}
