/** Welford's running mean and variance, over real arithmetic. */
module RunningVariance {
  import opened Sums

  /** What the accumulator holds: the number of values, their mean and their sum of squared deviations. */
  datatype Moments = Moments(count: nat, mean: real, m2: real)

  /** The one-pass update. */
  function Push(m: Moments, value: real): Moments {
    var count := m.count + 1;
    var delta := value - m.mean;
    var mean := m.mean + delta / (count as real);
    Moments(count, mean, m.m2 + delta * (value - mean))
  }

  function PushAll(values: seq<real>): Moments {
    if values == [] then Moments(0, 0.0, 0.0)
    else Push(PushAll(values[..|values|-1]), values[|values|-1])
  }

  /** The textbook two-pass definition. */
  function Batch(values: seq<real>): Moments {
    if values == [] then Moments(0, 0.0, 0.0)
    else Moments(|values|, Mean(values), SquaredDev(values, Mean(values)))
  }

  /** The running accumulator agrees with the batch definition after any sequence of values. */
  lemma {:induction false} PushAllIsBatch(values: seq<real>)
    ensures PushAll(values) == Batch(values)
  {
    if values != [] {
      var n := |values| - 1;
      PushAllIsBatch(values[..n]);
      PushKeepsBatch(values, n);
    }
  }

  lemma PushKeepsBatch(values: seq<real>, n: nat)
    requires |values| == n + 1
    ensures Push(Batch(values[..n]), values[n]) == Batch(values)
  {
    hide Times, Dot;
    var init, v := values[..n], values[n];
    var k, k' := n as real, |values| as real;
    var m, m' := Batch(init).mean, Mean(values);
    MeanTimesCount(values);
    if n == 0 {
      assert init == [];
      assert Sum(values) == Sum(init) + v == v;
      assert k' == 1.0 && v / 1.0 == v && m' == v;
      SquareNonNegative(v - m');
      assert SquaredDev(values, v) == SquaredDev(init, v) + Square(v - v) == 0.0;
      var p := Push(Batch(init), v);
      assert p.mean == v && p.m2 == v * (v - v) == 0.0;
    } else {
      MeanTimesCount(init);
      SquaredDevMoments(init, m);
      SquaredDevMoments(init, m');
      PushAlgebra(k, Sum(init), Dot(init, init), m, m', v);
    }
  }

  lemma PushAlgebra(k: real, s: real, q: real, m: real, m': real, v: real)
    requires k > 0.0 && k * m == s && (k + 1.0) * m' == s + v
    ensures m' == m + (v - m) / (k + 1.0)
    ensures (q - 2.0 * (m * s) + m * (m * k)) + (v - m) * (v - m')
         == (q - 2.0 * (m' * s) + m' * (m' * k)) + Square(v - m')
  {
    var delta := v - m;
    assert (k + 1.0) * (m' - m) == delta;
    assert m' - m == delta / (k + 1.0);
    var e := m' - m;
    assert m * s == m * (k * m) && m' * s == m' * (k * m);
    assert v - m' == k * e;
    assert (v - m) * (v - m') == k * (e * (v - m') + e * e) by {
      assert v - m == (k + 1.0) * e;
    }
  }

  /** Order does not matter: the accumulator depends only on the multiset of values. */
  lemma OrderIndependent(a: seq<real>, b: seq<real>)
    requires multiset(a) == multiset(b)
    ensures PushAll(a) == PushAll(b)
  {
    hide Times, Dot, Sum, SquaredDev, PushAll;
    PushAllIsBatch(a);
    PushAllIsBatch(b);
    SumPermutation(a, b);
    if a != [] {
      SquaredDevMoments(a, Mean(a));
      SquaredDevMoments(b, Mean(b));
    }
  }

  function Abs(x: real): real {
    if x < 0.0 then -x else x
  }

  /** With d >= 0 and a threshold k * sd, comparing absolute values is comparing squares. */
  lemma CompareSquares(x: real, y: real)
    requires y >= 0.0
    ensures Abs(x) > y <==> x * x > y * y
  {
    var a := Abs(x);
    assert a * a == x * x;
    var d, t := a - y, a + y;
    assert d * t == a * a - y * y;
    if d > 0.0 {
      TimesPositive(d, t);
    } else if d < 0.0 && t > 0.0 {
      TimesPositive(-d, t);
    }
  }

  class Welford {
    var count: nat
    var mean: real
    var m2: real
    /** Every value added so far. */
    ghost var log: seq<real>

    ghost predicate Valid() reads this {
      Moments(count, mean, m2) == PushAll(log)
    }

    constructor ()
      ensures Valid() && log == []
    {
      count, mean, m2, log := 0, 0.0, 0.0, [];
    }

    method Add(value: real)
      requires Valid()
      modifies this
      ensures Valid() && log == old(log) + [value]
      ensures Moments(count, mean, m2) == Batch(log)
    {
      count := count + 1;
      var delta := value - mean;
      mean := mean + delta / (count as real);
      var delta2 := value - mean;
      m2 := m2 + delta * delta2;
      log := log + [value];
      assert log[..|log|-1] == old(log);
      PushAllIsBatch(log);
    }

    /** The sample variance; zero below two values. */
    method Variance() returns (v: real)
      requires Valid()
      ensures |log| < 2 ==> v == 0.0
      ensures |log| >= 2 ==> v * ((|log| - 1) as real) == SquaredDev(log, Mean(log)) && v >= 0.0
    {
      PushAllIsBatch(log);
      if count < 2 {
        return 0.0;
      }
      SquaredDevZero(log, Mean(log));
      v := m2 / ((count - 1) as real);
    }

    /**
      The outlier test. `stdDev` is what the square root of the variance evaluates to. From ten values on
      the verdict is the square-root-free batch test for a non-negative nSigma; for a negative nSigma
      everything but an exact hit on a zero-variance mean is an outlier.
    */
    method IsAnomaly(value: real, nSigma: real, stdDev: real) returns (b: bool)
      requires Valid()
      requires |log| >= 2 ==> IsRoot(stdDev, (|log| - 1) as real, SquaredDev(log, Mean(log)))
      ensures |log| < 10 ==> !b
      ensures |log| >= 10 ==> (b <==> Outlier(log, value, nSigma))
    {
      PushAllIsBatch(log);
      hide IsRoot, Outlier, SquaredDev, Mean, PushAll;
      if count < 10 {
        return false;
      }
      b := Abs(value - mean) > nSigma * stdDev;
      OutlierByDeviation(log, value, nSigma, stdDev);
    }
  }

  /** sd is the square root of dev / n. */
  predicate IsRoot(sd: real, n: real, dev: real) {
    sd >= 0.0 && sd * sd * n == dev
  }

  predicate BeyondSquared(d: real, k: real, n: real, dev: real) {
    d * d * n > k * k * dev
  }

  /** The batch test: no square root, and for a negative nSigma only whether all values are the same. */
  ghost predicate Outlier(log: seq<real>, value: real, nSigma: real)
    requires |log| >= 2
  {
    var m := Mean(log);
    if nSigma >= 0.0 then BeyondSquared(value - m, nSigma, (|log| - 1) as real, SquaredDev(log, m))
    else value != m || exists i :: 0 <= i < |log| && log[i] != m
  }

  lemma OutlierByDeviation(log: seq<real>, value: real, nSigma: real, stdDev: real)
    requires |log| >= 2 && IsRoot(stdDev, (|log| - 1) as real, SquaredDev(log, Mean(log)))
    ensures Abs(value - Mean(log)) > nSigma * stdDev <==> Outlier(log, value, nSigma)
  {
    hide IsRoot, BeyondSquared, SquaredDev, Mean, Abs;
    SquaredDevZero(log, Mean(log));
    SigmaTest(value - Mean(log), nSigma, stdDev, (|log| - 1) as real, SquaredDev(log, Mean(log)));
  }

  lemma SigmaTest(d: real, k: real, sd: real, n: real, dev: real)
    requires n > 0.0 && IsRoot(sd, n, dev)
    ensures k >= 0.0 ==> (Abs(d) > k * sd <==> BeyondSquared(d, k, n, dev))
    ensures k < 0.0 ==> (Abs(d) > k * sd <==> d != 0.0 || dev != 0.0)
  {
    if k >= 0.0 {
      var y := k * sd;
      assert y >= 0.0 by { if k > 0.0 && sd > 0.0 { TimesPositive(k, sd); } }
      CompareSquares(d, y);
      assert k * k * dev == (y * y) * n;
      ScaledOrder(n, d * d, y * y);
    } else {
      if sd > 0.0 {
        TimesPositive(-k, sd);
        TimesPositive(sd, sd);
        TimesPositive(sd * sd, n);
      }
    }
  }

  lemma ScaledOrder(n: real, x: real, y: real)
    requires n > 0.0
    ensures x * n > y * n <==> x > y
  {
    if x > y {
      TimesPositive(x - y, n);
    } else if x < y {
      TimesPositive(y - x, n);
    }
  }
}
