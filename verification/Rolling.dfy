/** The rolling operators: a circular buffer and incremental sums, updated in place. */
module Rolling {
  import opened Numbers
  import opened Moments
  import opened Windows

  lemma RoundOnce(i: nat, n: nat)
    requires n > 0
    ensures i < n ==> i % n == i
    ensures n <= i < 2 * n ==> i % n == i - n
    ensures 0 <= i % n < n
  {
    if n <= i < 2 * n {
      assert i == n * 1 + (i - n);
    }
  }

  class Container {
    const buf: array<Num>
    var headIdx: nat
    var tailIdx: nat

    ghost predicate Valid()
      reads this, buf
    {
      headIdx < buf.Length && tailIdx < buf.Length
    }

    /** The values held, oldest first. */
    ghost function Window(): (w: seq<Num>)
      reads this, buf
      requires Valid()
      ensures |w| == buf.Length
    {
      buf[headIdx..] + buf[..headIdx]
    }

    constructor (n: nat)
      requires n > 0
      ensures Valid() && fresh(buf) && buf.Length == n
      ensures Window() == WindowOf([], n)
    {
      buf := new Num[n](_ => NaN);
      headIdx, tailIdx := 0, 0;
    }

    function Len(): nat {
      buf.Length
    }

    /** The oldest value. */
    function Head(): (v: Num)
      reads this, buf
      requires Valid()
      ensures v == Window()[0]
    {
      buf[headIdx]
    }

    /** The cell written last. */
    function Tail(): Num
      reads this, buf
      requires Valid()
    {
      buf[tailIdx]
    }

    /** The `idx`-th oldest value, counting round the buffer. */
    function Get(idx: nat): (v: Num)
      reads this, buf
      requires Valid()
      ensures idx < buf.Length ==> v == Window()[idx]
    {
      RoundOnce(headIdx + idx, buf.Length);
      buf[(headIdx + idx) % buf.Length]
    }

    method Update(v: Num)
      requires Valid()
      modifies this, buf
      ensures Valid()
      ensures Window() == Slide(old(Window()), v)
      ensures Tail() == v
    {
      tailIdx := headIdx;
      buf[tailIdx] := v;
      headIdx := (headIdx + 1) % buf.Length;
      assert headIdx == if tailIdx + 1 == buf.Length then 0 else tailIdx + 1 by {
        RoundOnce(tailIdx + 1, buf.Length);
      }
      assert Window() == old(buf[headIdx..] + buf[..headIdx])[1..] + [v];
    }
  }

  class Sumer {
    const container: Container
    var nanCount: nat
    var sum: real

    ghost function Repr(): set<object> {
      {this, container, container.buf}
    }

    ghost predicate Valid()
      reads Repr()
    {
      && container.Valid()
      && nanCount == BadCount(container.Window())
      && sum == FiniteSum(container.Window())
    }

    ghost function Window(): seq<Num>
      reads container, container.buf
      requires container.Valid()
    {
      container.Window()
    }

    constructor (n: nat)
      requires n > 0
      ensures Valid() && fresh(Repr())
      ensures container.Len() == n && Window() == WindowOf([], n)
    {
      container := new Container(n);
      nanCount, sum := n, 0.0;
      new;
      FreshWindow(n);
    }

    method Update(v: Num) returns (total: Num)
      requires Valid()
      modifies Repr()
      ensures Valid()
      ensures Window() == Slide(old(Window()), v)
      ensures total == Total(Window())
    {
      var oldVal := container.Head();
      ghost var w := Window();
      container.Update(v);
      AppendValue(w[1..], v);
      if NanOrInf(oldVal) {
        nanCount := nanCount - 1;
      } else {
        sum := sum - oldVal.r;
      }
      if NanOrInf(v) {
        nanCount := nanCount + 1;
      } else {
        sum := sum + v.r;
      }
      total := if nanCount > 0 then NaN else Fin(sum);
    }
  }

  class Meaner {
    const sumer: Sumer

    ghost function Repr(): set<object> {
      {this} + sumer.Repr()
    }

    ghost predicate Valid()
      reads Repr()
    {
      sumer.Valid()
    }

    ghost function Window(): seq<Num>
      reads Repr()
      requires Valid()
    {
      sumer.Window()
    }

    constructor (n: nat)
      requires n > 0
      ensures Valid() && fresh(Repr())
      ensures sumer.container.Len() == n && Window() == WindowOf([], n)
    {
      sumer := new Sumer(n);
    }

    /** Returns the mean of the window after the update. */
    method Update(v: Num) returns (mean: Num)
      requires Valid()
      modifies Repr()
      ensures Valid()
      ensures Window() == Slide(old(Window()), v)
      ensures mean == MeanOf(Window())
    {
      var total := sumer.Update(v);
      mean := Div(total, sumer.container.Len() as real);
      TotalOfPowers(Window());
    }
  }

  lemma VarianceNumerator(s: real, q: real, n: real, m: real, d: real)
    requires n > 0.0 && SecondMoment(s, q, n, m, d)
    ensures Sub(Fin(q), Div(Mul(Fin(s), Fin(s)), n)) == Fin(d)
  {
  }

  lemma VarianceClosedForm(w: seq<Num>, sum: Num, sqSum: Num)
    requires w != [] && sum == Total(w) && sqSum == Total(Squares(w))
    ensures Div(Sub(sqSum, Div(Mul(sum, sum), |w| as real)), |w| as real - 1.0) == VarianceOf(w)
  {
    TotalOfPowers(w);
    if AllFinite(w) {
      var xs := Values(w);
      SecondCentralMoment(xs);
      VarianceNumerator(Sum(xs), SumSquares(xs), |w| as real, Mean(xs), Deviation2(xs, Mean(xs)));
    }
  }

  class Stder {
    const sumer: Sumer
    const sqSumer: Sumer
    const num: nat

    ghost function Repr(): set<object> {
      {this} + sumer.Repr() + sqSumer.Repr()
    }

    ghost predicate Valid()
      reads Repr()
    {
      && sumer.Repr() !! sqSumer.Repr()
      && sumer.Valid() && sqSumer.Valid()
      && num == sumer.container.Len() == sqSumer.container.Len()
      && sqSumer.Window() == Squares(sumer.Window())
    }

    ghost function Window(): seq<Num>
      reads Repr()
      requires Valid()
    {
      sumer.Window()
    }

    constructor (n: nat)
      requires n > 0
      ensures Valid() && fresh(Repr())
      ensures Window() == WindowOf([], n)
    {
      sumer := new Sumer(n);
      sqSumer := new Sumer(n);
      num := n;
      new;
      PowersOfFresh(n);
    }

    /** Returns what the source takes the square root of: the sample variance of the window
        after the update. */
    method Update(v: Num) returns (variance: Num)
      requires Valid()
      modifies Repr()
      ensures Valid()
      ensures Window() == Slide(old(Window()), v)
      ensures variance == VarianceOf(Window())
    {
      PowersSlide(Window(), v);
      var sum := sumer.Update(v);
      var sqSum := sqSumer.Update(Mul(v, v));
      variance := Div(Sub(sqSum, Div(Mul(sum, sum), num as real)), num as real - 1.0);
      VarianceClosedForm(Window(), sum, sqSum);
    }
  }

  method TwoSumers(n: nat) returns (a: Sumer, b: Sumer)
    requires n > 0
    ensures fresh(a.Repr()) && fresh(b.Repr()) && a.Repr() !! b.Repr()
    ensures a.Valid() && a.Window() == WindowOf([], n)
    ensures b.Valid() && b.Window() == WindowOf([], n)
  {
    a := new Sumer(n);
    b := new Sumer(n);
  }

  method SkewParts(n: nat) returns (m: Meaner, a: Sumer, b: Sumer)
    requires n > 0
    ensures fresh(m.Repr()) && fresh(a.Repr()) && fresh(b.Repr())
    ensures m.Repr() !! a.Repr() && m.Repr() !! b.Repr() && a.Repr() !! b.Repr()
    ensures m.Valid() && m.Window() == WindowOf([], n) && m.sumer.container.Len() == n
    ensures a.Valid() && a.Window() == WindowOf([], n)
    ensures b.Valid() && b.Window() == WindowOf([], n)
  {
    a, b := TwoSumers(n);
    m := new Meaner(n);
  }

  lemma SkewNumerator(s: real, q: real, c: real, n: real, m: real, d2: real, d3: real)
    requires n > 0.0 && SecondMoment(s, q, n, m, d2) && ThirdMoment(q, c, n, m, d3)
    ensures var variance := Sub(Div(Fin(q), n), Mul(Fin(m), Fin(m)));
      && variance == Fin(d2 / n)
      && Sub(Sub(Div(Fin(c), n), Mul(Mul(Fin(3.0), Fin(m)), variance)), Mul(Mul(Fin(m), Fin(m)), Fin(m)))
         == Fin(d3 / n)
  {
  }

  lemma SkewClosedForm(w: seq<Num>, mean: Num, sqSum: Num, cbSum: Num)
    requires w != [] && mean == MeanOf(w) && sqSum == Total(Squares(w)) && cbSum == Total(Cubes(w))
    ensures var n := |w| as real;
      var variance := Sub(Div(sqSum, n), Mul(mean, mean));
      && variance == SpreadOf(w)
      && Sub(Sub(Div(cbSum, n), Mul(Mul(Fin(3.0), mean), variance)), Mul(Mul(mean, mean), mean)) == AsymmetryOf(w)
  {
    TotalOfPowers(w);
    if AllFinite(w) {
      var xs := Values(w);
      SecondCentralMoment(xs);
      ThirdCentralMoment(xs);
      SkewNumerator(Sum(xs), SumSquares(xs), SumCubes(xs), |w| as real, Mean(xs),
                    Deviation2(xs, Mean(xs)), Deviation3(xs, Mean(xs)));
    }
  }

  class Skewer {
    const meaner: Meaner
    const sqSumer: Sumer
    const cbSumer: Sumer
    const num: nat

    ghost function Repr(): set<object> {
      {this} + meaner.Repr() + sqSumer.Repr() + cbSumer.Repr()
    }

    ghost predicate Valid()
      reads Repr()
    {
      && meaner.Repr() !! sqSumer.Repr() && meaner.Repr() !! cbSumer.Repr()
      && sqSumer.Repr() !! cbSumer.Repr()
      && meaner.Valid() && sqSumer.Valid() && cbSumer.Valid()
      && num == meaner.sumer.container.Len()
      && sqSumer.Window() == Squares(meaner.Window())
      && cbSumer.Window() == Cubes(meaner.Window())
    }

    ghost function Window(): seq<Num>
      reads Repr()
      requires Valid()
    {
      meaner.Window()
    }

    constructor (n: nat)
      requires n > 0
      ensures Valid() && fresh(Repr())
      ensures Window() == WindowOf([], n)
    {
      PowersOfFresh(n);
      var m, sq, cb := SkewParts(n);
      meaner, sqSumer, cbSumer, num := m, sq, cb, n;
    }

    /** Returns the numerator of the skewness and the variance whose 1.5th power divides it:
        the third central moment and the population variance of the window after the
        update. */
    method Update(v: Num) returns (numerator: Num, variance: Num)
      requires Valid()
      modifies Repr()
      ensures Valid()
      ensures Window() == Slide(old(Window()), v)
      ensures numerator == AsymmetryOf(Window())
      ensures variance == SpreadOf(Window())
    {
      PowersSlide(Window(), v);
      var mean := meaner.Update(v);
      var sqSum := sqSumer.Update(Mul(v, v));
      var cbSum := cbSumer.Update(Mul(Mul(v, v), v));
      var n := num as real;
      variance := Sub(Div(sqSum, n), Mul(mean, mean));
      numerator := Sub(Sub(Div(cbSum, n), Mul(Mul(Fin(3.0), mean), variance)), Mul(Mul(mean, mean), mean));
      SkewClosedForm(Window(), mean, sqSum, cbSum);
    }
  }
}
