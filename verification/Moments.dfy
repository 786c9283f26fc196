/** Sums of powers against the definitions they are shortcuts for. */
module Moments {
  import opened Numbers

  function Square(x: real): real {
    x * x
  }

  function Cube(x: real): real {
    x * x * x
  }

  function Sum(xs: seq<real>): real {
    if xs == [] then 0.0 else xs[0] + Sum(xs[1..])
  }

  function SumSquares(xs: seq<real>): real {
    if xs == [] then 0.0 else Square(xs[0]) + SumSquares(xs[1..])
  }

  function SumCubes(xs: seq<real>): real {
    if xs == [] then 0.0 else Cube(xs[0]) + SumCubes(xs[1..])
  }

  function Mean(xs: seq<real>): real
    requires xs != []
  {
    Sum(xs) / |xs| as real
  }

  /** Sum of squared deviations from `m`. */
  function Deviation2(xs: seq<real>, m: real): real {
    if xs == [] then 0.0 else Square(xs[0] - m) + Deviation2(xs[1..], m)
  }

  /** Sum of cubed deviations from `m`. */
  function Deviation3(xs: seq<real>, m: real): real {
    if xs == [] then 0.0 else Cube(xs[0] - m) + Deviation3(xs[1..], m)
  }

  // ---------------------------------------------------------------- the algebra, on plain numbers

  /** `d` is the sum of squared deviations from `m` of `n` values with sum `s` and sum of
      squares `q`. */
  ghost predicate Expansion2(s: real, q: real, n: real, m: real, d: real) {
    d == q - 2.0 * m * s + n * (m * m)
  }

  /** `d` is the sum of cubed deviations, `c` the sum of cubes. */
  ghost predicate Expansion3(s: real, q: real, c: real, n: real, m: real, d: real) {
    d == c - 3.0 * m * q + 3.0 * (m * m) * s - n * (m * m * m)
  }

  lemma SquareTerm(x: real, s: real, q: real, n: real, m: real, d: real)
    requires Expansion2(s, q, n, m, d)
    ensures Expansion2(x + s, Square(x) + q, n + 1.0, m, Square(x - m) + d)
  {
    assert (x - m) * (x - m) == x * x - 2.0 * (m * x) + m * m;
  }

  lemma CubeTerm(x: real, s: real, q: real, c: real, n: real, m: real, d: real)
    requires Expansion3(s, q, c, n, m, d)
    ensures Expansion3(x + s, Square(x) + q, Cube(x) + c, n + 1.0, m, Cube(x - m) + d)
  {
    assert (x - m) * (x - m) == x * x - 2.0 * (m * x) + m * m;
  }

  /** What `Stder` divides by `n - 1`, and what `Skewer` calls the variance. */
  ghost predicate SecondMoment(s: real, q: real, n: real, m: real, d: real)
    requires n != 0.0
  {
    q - s * s / n == d && q / n - m * m == d / n
  }

  /** The numerator `Skewer` computes. */
  ghost predicate ThirdMoment(q: real, c: real, n: real, m: real, d: real)
    requires n != 0.0
  {
    c / n - 3.0 * m * (q / n - m * m) - m * m * m == d / n
  }

  lemma QuotientIs(a: real, b: real, n: real)
    requires n != 0.0 && a == b * n
    ensures a / n == b
  {
  }

  lemma SquareTerms(s: real, q: real, n: real, m: real, d: real)
    requires n > 0.0 && m == s / n && Expansion2(s, q, n, m, d)
    ensures SecondMoment(s, q, n, m, d)
  {
    assert s == m * n;
    QuotientIs(s * s, m * s, n);
    QuotientIs(d, q / n - m * m, n);
  }

  lemma CubeFactors(m: real, u: real, v: real, n: real)
    ensures v * n - 3.0 * m * (u * n) + 3.0 * (m * m) * (m * n) - n * (m * m * m)
         == (v - 3.0 * m * (u - m * m) - m * m * m) * n
  {
  }

  lemma CubeTerms(s: real, q: real, c: real, n: real, m: real, d: real)
    requires n > 0.0 && m == s / n && Expansion3(s, q, c, n, m, d)
    ensures ThirdMoment(q, c, n, m, d)
  {
    var u, v := q / n, c / n;
    assert s == m * n && q == u * n && c == v * n;
    CubeFactors(m, u, v, n);
    QuotientIs(d, v - 3.0 * m * (u - m * m) - m * m * m, n);
  }

  // ---------------------------------------------------------------- closed forms are the moments

  lemma {:induction false} Deviation2Expands(xs: seq<real>, m: real)
    ensures Expansion2(Sum(xs), SumSquares(xs), |xs| as real, m, Deviation2(xs, m))
  {
    if xs != [] {
      var rest := xs[1..];
      Deviation2Expands(rest, m);
      SquareTerm(xs[0], Sum(rest), SumSquares(rest), |rest| as real, m, Deviation2(rest, m));
      assert |xs| as real == |rest| as real + 1.0;
    }
  }

  lemma {:induction false} Deviation3Expands(xs: seq<real>, m: real)
    ensures Expansion3(Sum(xs), SumSquares(xs), SumCubes(xs), |xs| as real, m, Deviation3(xs, m))
  {
    if xs != [] {
      var rest := xs[1..];
      Deviation3Expands(rest, m);
      CubeTerm(xs[0], Sum(rest), SumSquares(rest), SumCubes(rest), |rest| as real, m, Deviation3(rest, m));
      assert |xs| as real == |rest| as real + 1.0;
    }
  }

  /** `sq_sum - sum * sum / n` is the sum of squared deviations from the mean, and
      `sq_sum / n - mean * mean` the population variance. */
  lemma SecondCentralMoment(xs: seq<real>)
    requires xs != []
    ensures SecondMoment(Sum(xs), SumSquares(xs), |xs| as real, Mean(xs), Deviation2(xs, Mean(xs)))
  {
    Deviation2Expands(xs, Mean(xs));
    SquareTerms(Sum(xs), SumSquares(xs), |xs| as real, Mean(xs), Deviation2(xs, Mean(xs)));
  }

  /** `cb_sum / n - 3 * mean * variance - mean^3` is the third central moment. */
  lemma ThirdCentralMoment(xs: seq<real>)
    requires xs != []
    ensures ThirdMoment(SumSquares(xs), SumCubes(xs), |xs| as real, Mean(xs), Deviation3(xs, Mean(xs)))
  {
    Deviation3Expands(xs, Mean(xs));
    CubeTerms(Sum(xs), SumSquares(xs), SumCubes(xs), |xs| as real, Mean(xs), Deviation3(xs, Mean(xs)));
  }

  lemma PositiveSquare(d: real)
    requires d > 0.0
    ensures Square(d) > 0.0
  {
    PositiveProduct(d, d, Square(d));
  }

  lemma SquareSign(d: real)
    ensures Square(d) >= 0.0 && (Square(d) == 0.0 <==> d == 0.0)
  {
    if d < 0.0 {
      PositiveSquare(-d);
      assert Square(-d) == Square(d);
    } else if d > 0.0 {
      PositiveSquare(d);
    } else {
      assert d == 0.0 && Square(0.0) == 0.0;
    }
  }

  /** A sum of squared deviations is never negative, and zero exactly when every value is
      `m`. */
  lemma {:induction false} Deviation2Sign(xs: seq<real>, m: real)
    ensures Deviation2(xs, m) >= 0.0
    ensures Deviation2(xs, m) == 0.0 <==> forall i | 0 <= i < |xs| :: xs[i] == m
  {
    if xs != [] {
      Deviation2Sign(xs[1..], m);
      var d := xs[0] - m;
      SquareSign(d);
      assert forall i | 0 <= i < |xs| :: xs[i] == if i == 0 then xs[0] else xs[1..][i - 1];
      assert forall i | 0 <= i < |xs[1..]| :: xs[1..][i] == xs[i + 1];
    }
  }

  lemma {:induction false} SumOfConstant(xs: seq<real>, c: real)
    requires forall i | 0 <= i < |xs| :: xs[i] == c
    ensures Sum(xs) == c * |xs| as real
  {
    if xs != [] {
      SumOfConstant(xs[1..], c);
    }
  }

  /** The variance vanishes exactly on constant windows. */
  lemma VarianceZeroIffConstant(xs: seq<real>)
    requires xs != []
    ensures Deviation2(xs, Mean(xs)) == 0.0 <==> forall i | 0 <= i < |xs| :: xs[i] == xs[0]
  {
    Deviation2Sign(xs, Mean(xs));
    if forall i | 0 <= i < |xs| :: xs[i] == xs[0] {
      SumOfConstant(xs, xs[0]);
      assert Mean(xs) == xs[0];
    }
  }

  /** One sample written out: 0, 0 and 3 have mean 1, squared deviations 1, 1 and 4 from it, and
      cubed ones -1, -1 and 8. */
  lemma KnownSample()
    ensures var xs := [0.0, 0.0, 3.0];
      Sum(xs) == 3.0 && Mean(xs) == 1.0 && Deviation2(xs, 1.0) == 6.0 && Deviation3(xs, 1.0) == 6.0
  {
    var xs := [0.0, 0.0, 3.0];
    assert xs[1..] == [0.0, 3.0] && xs[1..][1..] == [3.0] && [3.0][1..] == [];
    assert Sum([3.0]) == 3.0 && Deviation2([3.0], 1.0) == 4.0 && Deviation3([3.0], 1.0) == 8.0;
    assert Deviation2([0.0, 3.0], 1.0) == 5.0 && Deviation3([0.0, 3.0], 1.0) == 7.0;
  }
}
