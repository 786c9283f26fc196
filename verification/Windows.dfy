/** Sliding windows of the last `n` values, and the statistics of a window computed from
    scratch. */
module Windows {
  import opened Numbers
  import opened Moments

  /** The last `n` values of a history, with NaN for those not seen yet. */
  function WindowOf(history: seq<Num>, n: nat): (w: seq<Num>)
    ensures |w| == n
    ensures forall i | 0 <= i < n ::
              w[i] == if |history| + i < n then NaN else history[|history| + i - n]
  {
    (seq(n, _ => NaN) + history)[|history|..]
  }

  function Slide(w: seq<Num>, v: Num): seq<Num>
    requires w != []
  {
    w[1..] + [v]
  }

  lemma SlideIsWindowOf(history: seq<Num>, n: nat, v: Num)
    requires n > 0
    ensures Slide(WindowOf(history, n), v) == WindowOf(history + [v], n)
  {
  }

  function SlideAll(w: seq<Num>, vs: seq<Num>): seq<Num>
    requires w != []
    decreases |vs|
  {
    if vs == [] then w else SlideAll(Slide(w, vs[0]), vs[1..])
  }

  /** After any number of updates the window holds the last `n` values. */
  lemma {:induction false} SlideAllIsWindowOf(history: seq<Num>, vs: seq<Num>, n: nat)
    requires n > 0
    ensures SlideAll(WindowOf(history, n), vs) == WindowOf(history + vs, n)
    decreases |vs|
  {
    if vs == [] {
      assert history + vs == history;
    } else {
      SlideIsWindowOf(history, n, vs[0]);
      assert history + vs == history + [vs[0]] + vs[1..];
      SlideAllIsWindowOf(history + [vs[0]], vs[1..], n);
    }
  }

  // ---------------------------------------------------------------- counts and sums

  function BadCount(w: seq<Num>): nat {
    if w == [] then 0 else (if NanOrInf(w[0]) then 1 else 0) + BadCount(w[1..])
  }

  function FiniteSum(w: seq<Num>): real {
    if w == [] then 0.0 else (if w[0].Fin? then w[0].r else 0.0) + FiniteSum(w[1..])
  }

  lemma {:induction false} AppendValue(w: seq<Num>, v: Num)
    ensures BadCount(w + [v]) == BadCount(w) + (if NanOrInf(v) then 1 else 0)
    ensures FiniteSum(w + [v]) == FiniteSum(w) + (if v.Fin? then v.r else 0.0)
  {
    if w == [] {
      assert w + [v] == [v];
    } else {
      AppendValue(w[1..], v);
      assert (w + [v])[1..] == w[1..] + [v];
    }
  }

  lemma {:induction false} FreshWindow(n: nat)
    ensures BadCount(WindowOf([], n)) == n
    ensures FiniteSum(WindowOf([], n)) == 0.0
  {
    if n > 0 {
      FreshWindow(n - 1);
      assert WindowOf([], n)[1..] == WindowOf([], n - 1);
    }
  }

  predicate AllFinite(w: seq<Num>) {
    forall i | 0 <= i < |w| :: w[i].Fin?
  }

  lemma {:induction false} NoneBad(w: seq<Num>)
    ensures BadCount(w) == 0 <==> AllFinite(w)
    ensures BadCount(w) <= |w|
  {
    if w != [] {
      NoneBad(w[1..]);
      assert AllFinite(w) ==> AllFinite(w[1..]);
      assert forall i | 1 <= i < |w| :: w[i] == w[1..][i - 1];
    }
  }

  /** What a rolling sum shows: a number only when the whole window is finite. */
  function Total(w: seq<Num>): Num {
    if BadCount(w) > 0 then NaN else Fin(FiniteSum(w))
  }

  // ---------------------------------------------------------------- powers

  function Squares(w: seq<Num>): (q: seq<Num>)
    ensures |q| == |w|
    ensures forall i | 0 <= i < |w| :: q[i] == Mul(w[i], w[i])
  {
    seq(|w|, i requires 0 <= i < |w| => Mul(w[i], w[i]))
  }

  function Cubes(w: seq<Num>): (c: seq<Num>)
    ensures |c| == |w|
    ensures forall i | 0 <= i < |w| :: c[i] == Mul(Mul(w[i], w[i]), w[i])
  {
    seq(|w|, i requires 0 <= i < |w| => Mul(Mul(w[i], w[i]), w[i]))
  }

  lemma PowersSlide(w: seq<Num>, v: Num)
    requires w != []
    ensures Squares(Slide(w, v)) == Slide(Squares(w), Mul(v, v))
    ensures Cubes(Slide(w, v)) == Slide(Cubes(w), Mul(Mul(v, v), v))
  {
  }

  lemma PowersOfFresh(n: nat)
    ensures Squares(WindowOf([], n)) == WindowOf([], n)
    ensures Cubes(WindowOf([], n)) == WindowOf([], n)
  {
  }

  // ---------------------------------------------------------------- statistics from scratch

  function Values(w: seq<Num>): (xs: seq<real>)
    requires AllFinite(w)
    ensures |xs| == |w|
    ensures forall i | 0 <= i < |w| :: xs[i] == w[i].r
  {
    seq(|w|, i requires 0 <= i < |w| => w[i].r)
  }

  /** Mean of a window. */
  function MeanOf(w: seq<Num>): Num
    requires w != []
  {
    if AllFinite(w) then Fin(Mean(Values(w))) else NaN
  }

  /** Sample variance of a window: squared deviations from the mean over `n - 1`. */
  function VarianceOf(w: seq<Num>): Num {
    if AllFinite(w) && |w| >= 2
    then Fin(Deviation2(Values(w), Mean(Values(w))) / (|w| as real - 1.0))
    else NaN
  }

  /** Population variance of a window. */
  function SpreadOf(w: seq<Num>): Num
    requires w != []
  {
    if AllFinite(w) then Fin(Deviation2(Values(w), Mean(Values(w))) / |w| as real) else NaN
  }

  /** Third central moment of a window. */
  function AsymmetryOf(w: seq<Num>): Num
    requires w != []
  {
    if AllFinite(w) then Fin(Deviation3(Values(w), Mean(Values(w))) / |w| as real) else NaN
  }

  lemma QuotientOf(a: real, q: real, n: real)
    requires n > 0.0
    ensures q * n == a ==> a / n == q
  {
  }

  lemma QuotientBack(a: real, n: real)
    requires n > 0.0
    ensures a / n * n == a
  {
  }

  /** The statistics without quotients; of a window that is not all finite none is a number. */
  lemma StatisticsWrittenOut(w: seq<Num>, m: real)
    requires w != []
    ensures !AllFinite(w) ==> MeanOf(w) == VarianceOf(w) == SpreadOf(w) == AsymmetryOf(w) == NaN
    ensures AllFinite(w) ==> (MeanOf(w) == Fin(m) <==> m * |w| as real == Sum(Values(w)))
    ensures AllFinite(w) && MeanOf(w) == Fin(m) ==>
              && SpreadOf(w).Fin? && SpreadOf(w).r * |w| as real == Deviation2(Values(w), m)
              && AsymmetryOf(w).Fin? && AsymmetryOf(w).r * |w| as real == Deviation3(Values(w), m)
    ensures AllFinite(w) && MeanOf(w) == Fin(m) && |w| >= 2 ==>
              VarianceOf(w).Fin? && VarianceOf(w).r * (|w| as real - 1.0) == Deviation2(Values(w), m)
  {
    var n := |w| as real;
    if AllFinite(w) {
      var xs := Values(w);
      QuotientOf(Sum(xs), m, n);
      QuotientBack(Sum(xs), n);
      QuotientBack(Deviation2(xs, m), n);
      QuotientBack(Deviation3(xs, m), n);
      if |w| >= 2 {
        QuotientBack(Deviation2(xs, m), n - 1.0);
      }
    }
  }

  lemma {:induction false} SumOfValues(w: seq<Num>)
    requires AllFinite(w)
    ensures FiniteSum(w) == Sum(Values(w))
    ensures FiniteSum(Squares(w)) == SumSquares(Values(w))
    ensures FiniteSum(Cubes(w)) == SumCubes(Values(w))
  {
    if w != [] {
      SumOfValues(w[1..]);
      assert Values(w)[1..] == Values(w[1..]);
      assert Squares(w)[1..] == Squares(w[1..]);
      assert Cubes(w)[1..] == Cubes(w[1..]);
    }
  }

  /** The totals of a window and of its powers, in terms of its values. */
  lemma TotalOfPowers(w: seq<Num>)
    ensures Total(w) == if AllFinite(w) then Fin(Sum(Values(w))) else NaN
    ensures Total(Squares(w)) == if AllFinite(w) then Fin(SumSquares(Values(w))) else NaN
    ensures Total(Cubes(w)) == if AllFinite(w) then Fin(SumCubes(Values(w))) else NaN
  {
    NoneBad(w);
    NoneBad(Squares(w));
    NoneBad(Cubes(w));
    if AllFinite(w) {
      SumOfValues(w);
    } else {
      var i :| 0 <= i < |w| && !w[i].Fin?;
      assert !Squares(w)[i].Fin? && !Cubes(w)[i].Fin?;
    }
  }

  lemma QuotientSign(d: real, n: real)
    requires d >= 0.0 && n > 0.0
    ensures d / n >= 0.0 && (d / n == 0.0 <==> d == 0.0)
  {
    var q := d / n;
    assert q * n == d;
    if q < 0.0 {
      PositiveProduct(-q, n, -d);
    }
  }

  /** The variance of a finite window is never negative and vanishes exactly on constant
      windows. */
  lemma VarianceOfSign(w: seq<Num>)
    requires AllFinite(w) && |w| >= 2
    ensures VarianceOf(w).r >= 0.0
    ensures VarianceOf(w).r == 0.0 <==> forall i | 0 <= i < |w| :: w[i] == w[0]
  {
    var xs := Values(w);
    var d, n := Deviation2(xs, Mean(xs)), |w| as real - 1.0;
    Deviation2Sign(xs, Mean(xs));
    VarianceZeroIffConstant(xs);
    QuotientSign(d, n);
    assert (forall i | 0 <= i < |w| :: w[i] == w[0]) <==> (forall i | 0 <= i < |xs| :: xs[i] == xs[0]) by {
      assert forall i | 0 <= i < |w| :: w[i] == Fin(xs[i]);
    }
  }
}
