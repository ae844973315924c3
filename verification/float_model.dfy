/**
  Just enough of IEEE 754 single precision for the correlation guard: finite
  values (as reals, without rounding or overflow), the two infinities and
  NaN, with multiplication, division, square root and the classification
  tests the guard uses. Signed zero is not modelled: every zero is +0.
 */
module FloatModel {

  datatype Float = Finite(v: real) | Infinite(negative: bool) | NaN

  predicate IsInf(x: Float)
  {
    x.Infinite?
  }

  predicate IsNaN(x: Float)
  {
    x.NaN?
  }

  predicate IsZero(x: Float)
  {
    x == Finite(0.0)
  }

  /** Negative when finite and below zero, or the negative infinity. */
  predicate IsNegative(x: Float)
  {
    (x.Finite? && x.v < 0.0) || (x.Infinite? && x.negative)
  }

  /** `a * b`: NaN is absorbing, infinity times zero is NaN, signs multiply. */
  function Mul(a: Float, b: Float): (r: Float)
    ensures (IsNaN(a) || IsNaN(b)) ==> IsNaN(r)
    ensures (IsInf(a) && IsZero(b)) || (IsZero(a) && IsInf(b)) ==> IsNaN(r)
    ensures a.Finite? && b.Finite? ==> r == Finite(a.v * b.v)
  {
    if a.NaN? || b.NaN? then NaN
    else if a.Finite? && b.Finite? then Finite(a.v * b.v)
    else if IsZero(a) || IsZero(b) then NaN
    else Infinite(IsNegative(a) != IsNegative(b))
  }

  /** +inf squared stays +inf, 0 squared stays 0, and +inf times 0 is NaN. */
  lemma InfinityTimesZero()
    ensures Square(Infinite(false)) == Infinite(false)
    ensures Square(Finite(0.0)) == Finite(0.0)
    ensures Mul(Infinite(false), Finite(0.0)) == NaN
  {
  }

  /** `a / b`: x / 0 is an infinity for x != 0 and NaN for 0; infinity / infinity is NaN. */
  function Div(a: Float, b: Float): (r: Float)
    ensures (IsNaN(a) || IsNaN(b)) ==> IsNaN(r)
    ensures IsZero(a) && IsZero(b) ==> IsNaN(r)
    ensures IsInf(a) && IsInf(b) ==> IsNaN(r)
    ensures a.Finite? && b.Finite? && b.v != 0.0 ==> r == Finite(a.v / b.v)
    ensures a.Finite? && IsInf(b) ==> IsZero(r)
    ensures r.Finite? ==> a.Finite?
  {
    if a.NaN? || b.NaN? then NaN
    else if a.Infinite? && b.Infinite? then NaN
    else if a.Infinite? then Infinite(a.negative != IsNegative(b))
    else if b.Infinite? then Finite(0.0)
    else if b.v != 0.0 then Finite(a.v / b.v)
    else if a.v == 0.0 then NaN
    else Infinite(a.v < 0.0)
  }

  /**
    `root` is a square root on the non-negative reals. Zero's root is named
    separately because the solver is not given the fact that only 0 squares to 0.
   */
  ghost predicate IsRoot(root: real -> real)
  {
    && root(0.0) == 0.0
    && forall x :: x >= 0.0 ==> root(x) >= 0.0 && root(x) * root(x) == x
  }

  /**
    `std::sqrt`, with `root` standing for the square root of a non-negative
    real: NaN for NaN and for anything negative, +inf for +inf. `root` is a
    parameter; the finite results are only pinned down when `IsRoot(root)`.
   */
  function Sqrt(x: Float, root: real -> real): (r: Float)
    ensures IsNaN(x) || IsNegative(x) ==> IsNaN(r)
    ensures x == Infinite(false) ==> r == Infinite(false)
    ensures r.Finite? <==> x.Finite? && x.v >= 0.0
    ensures IsRoot(root) && r.Finite? ==> r.v >= 0.0 && r.v * r.v == x.v
    ensures IsRoot(root) ==> (IsZero(r) <==> IsZero(x))
  {
    match x
    case NaN => NaN
    case Infinite(neg) => if neg then NaN else Infinite(false)
    case Finite(v) => if v < 0.0 then NaN else RootOfZero(root, v); Finite(root(v))
  }

  /** A square root is zero exactly at zero. */
  lemma RootOfZero(root: real -> real, v: real)
    ensures IsRoot(root) && v >= 0.0 ==> (root(v) == 0.0 <==> v == 0.0)
  {
    if IsRoot(root) && v == 0.0 {
      assert root(0.0) == 0.0;
    }
  }

  /** `std::pow(x, 2)`. */
  function Square(x: Float): (r: Float)
    ensures !IsNegative(r)
    ensures IsNaN(r) <==> IsNaN(x)
  {
    Mul(x, x)
  }
}
