/** A `double` as the strategies use it: a finite number, an infinity or NaN, with the
    arithmetic and the comparisons of IEEE 754. Rounding and the sign of zero are not part of
    this model. */
module Numbers {

  datatype Num = Fin(r: real) | PosInf | NegInf | NaN

  predicate Positive(a: Num) {
    a.PosInf? || (a.Fin? && a.r > 0.0)
  }

  function Negate(a: Num): Num {
    match a
    case Fin(r) => Fin(-r)
    case PosInf => NegInf
    case NegInf => PosInf
    case NaN => NaN
  }

  /** Opposite infinities have no sum. */
  function Add(a: Num, b: Num): Num {
    if a.Fin? && b.Fin? then Fin(a.r + b.r)
    else if a.NaN? || b.NaN? || (a == Negate(b) && !a.Fin?) then NaN
    else if a.Fin? then b
    else a
  }

  function Sub(a: Num, b: Num): Num {
    Add(a, Negate(b))
  }

  /** Zero times an infinity is not a number. */
  function Mul(a: Num, b: Num): Num {
    if a.Fin? && b.Fin? then Fin(a.r * b.r)
    else if a.NaN? || b.NaN? || a == Fin(0.0) || b == Fin(0.0) then NaN
    else if Positive(a) == Positive(b) then PosInf
    else NegInf
  }

  /** Division by a count, which may be zero. */
  function Div(a: Num, n: real): Num
    requires n >= 0.0
  {
    if a.Fin? && n > 0.0 then Fin(a.r / n)
    else if !a.Fin? then a
    else if a.r == 0.0 then NaN
    else if a.r > 0.0 then PosInf
    else NegInf
  }

  /** `x - x != 0` picks out exactly the values that are not finite numbers. */
  predicate NanOrInf(x: Num)
    ensures NanOrInf(x) <==> !x.Fin?
  {
    Sub(x, x) != Fin(0.0)
  }

  /** Comparisons with NaN are false. */
  predicate Less(a: Num, b: Num) {
    match a
    case Fin(r) => b.PosInf? || (b.Fin? && r < b.r)
    case PosInf => false
    case NegInf => b.PosInf? || b.Fin?
    case NaN => false
  }

  predicate AtLeast(a: Num, b: Num) {
    Less(b, a) || (a == b && !a.NaN?)
  }

  /** A strict order with the infinities at its ends, which NaN takes no part in. */
  lemma LessIsOrder(a: Num, b: Num)
    ensures a.NaN? || b.NaN? ==> !Less(a, b) && !AtLeast(a, b)
    ensures !a.NaN? && !b.NaN? ==>
              && AtLeast(a, b) == !Less(a, b)
              && (a == b || Less(a, b) || Less(b, a)) && !(Less(a, b) && Less(b, a))
              && (Less(a, b) && !(a.Fin? && b.Fin?) <==> a != b && (a == NegInf || b == PosInf))
    ensures a.Fin? && b.Fin? ==> (Less(a, b) <==> a.r < b.r)
  {
  }

  /** `std::max` and `std::min`: the first argument unless the second compares beyond it. */
  function Max(a: Num, b: Num): Num {
    if Less(a, b) then b else a
  }

  function Min(a: Num, b: Num): Num {
    if Less(b, a) then b else a
  }

  /** `x > mean + 2 * sqrt(variance)` at a finite mean and variance, decided without the root.
      The root of a negative number is NaN, and the comparison with it false. */
  predicate AboveBand(x: Num, mean: Num, variance: Num) {
    && mean.Fin? && variance.Fin? && variance.r >= 0.0
    && Less(mean, x)
    && (x.PosInf? || (x.r - mean.r) * (x.r - mean.r) > 4.0 * variance.r)
  }

  /** `x < mean - 2 * sqrt(variance)`. */
  predicate BelowBand(x: Num, mean: Num, variance: Num) {
    && mean.Fin? && variance.Fin? && variance.r >= 0.0
    && Less(x, mean)
    && (x.NegInf? || (x.r - mean.r) * (x.r - mean.r) > 4.0 * variance.r)
  }

  lemma PositiveProduct(d: real, e: real, product: real)
    requires d > 0.0 && e > 0.0 && product == d * e
    ensures product > 0.0
  {
  }

  /** `x * x <= y * y` for non-negative `x <= y`, strictly if `x < y`. */
  lemma SquareGrows(x: real, y: real)
    requires 0.0 <= x <= y
    ensures x * x <= y * y && (x < y ==> x * x < y * y)
  {
    if x < y {
      PositiveProduct(y - x, y + x, y * y - x * x);
    }
  }

  lemma SquaresOrder(a: real, b: real)
    requires b >= 0.0
    ensures a > b <==> a > 0.0 && a * a > b * b
  {
    if a > 0.0 {
      if a > b {
        SquareGrows(b, a);
      } else {
        SquareGrows(a, b);
      }
    }
  }

  /** The tests on squares are the tests on the standard deviation, for any `root` that is
      the square root of the variance. */
  lemma BandsAreRootTests(x: real, mean: real, variance: real, root: real)
    requires root >= 0.0 && root * root == variance
    ensures AboveBand(Fin(x), Fin(mean), Fin(variance)) <==> x > mean + 2.0 * root
    ensures BelowBand(Fin(x), Fin(mean), Fin(variance)) <==> x < mean - 2.0 * root
  {
    SquaresOrder(x - mean, 2.0 * root);
    SquaresOrder(mean - x, 2.0 * root);
    assert (2.0 * root) * (2.0 * root) == 4.0 * variance;
    assert (mean - x) * (mean - x) == (x - mean) * (x - mean);
  }
}
