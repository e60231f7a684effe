/** Java number semantics the model needs, stated over mathematical integers and reals. */
module Numerics {

  /** A Java `int`. */
  type int32 = i: int | -0x8000_0000 <= i < 0x8000_0000

  /** Two's-complement wrap-around of Java `int` arithmetic. */
  function Wrap32(n: int): (r: int32)
    ensures -0x8000_0000 <= n < 0x8000_0000 ==> r == n
    ensures (r - n) % 0x1_0000_0000 == 0
  {
    (n + 0x8000_0000) % 0x1_0000_0000 - 0x8000_0000
  }

  /** `Math.ceil` on a real value. */
  function Ceil(v: real): (r: int)
    ensures v <= r as real < v + 1.0
  {
    -((-v).Floor)
  }

  function Abs(v: real): (r: real)
    ensures r >= 0.0 && (r == v || r == -v)
  {
    if v >= 0.0 then v else -v
  }

  /** Java's narrowing cast `(int) v` of a (finite) double: truncation toward zero,
      saturating at the bounds of `int`. */
  function DoubleToInt(v: real): (r: int32)
    ensures v >= 0x7fff_ffff as real ==> r == 0x7fff_ffff
    ensures v <= -0x8000_0000 as real ==> r == -0x8000_0000
    ensures -0x8000_0000 as real < v < 0x7fff_ffff as real ==>
              (r as real) * v >= 0.0 && Abs(r as real) <= Abs(v) < Abs(r as real) + 1.0
  {
    if v >= 0x7fff_ffff as real then 0x7fff_ffff
    else if v <= -0x8000_0000 as real then -0x8000_0000
    else if v >= 0.0 then v.Floor
    else -((-v).Floor)
  }

  /** `Double.MAX_VALUE` and `Double.MIN_VALUE` (the smallest POSITIVE double), used by the
      simulation as the starting values of its minimum and maximum searches. They are written
      as Java's shortest decimal literals, so as reals they are close to, but not equal to, the
      binary values (`Double.MIN_VALUE` is exactly 2^-1074); no proof depends on the exact
      value. */
  const DoubleMaxValue: real := 1.7976931348623157e308
  const DoubleMinValue: real := 4.9e-324

  /** The properties of `Math.sqrt` the model relies on: for a non-negative argument the
      result is the non-negative square root. */
  ghost predicate IsSqrt(sqrt: real -> real)
  {
    forall v: real {:trigger Root(sqrt, v)} :: v >= 0.0 ==> Root(sqrt, v) >= 0.0 && Root(sqrt, v) * Root(sqrt, v) == v
  }

  /** `Math.sqrt(v)`. Every use goes through this function, which reads nothing, so a root
      taken inside a method and one taken inside a specification are the same term. */
  function Root(sqrt: real -> real, v: real): real
  {
    sqrt(v)
  }

  /** The squared length of an offset `(dx, dy)`, as the source computes it before taking a
      square root. */
  function SquaredDistance(dx: real, dy: real): real
  {
    dx * dx + dy * dy
  }

  lemma MulPositive(a: real, b: real)
    requires a > 0.0 && b > 0.0
    ensures a * b > 0.0
  {
  }

  lemma MulZero(a: real, b: real)
    requires a >= 0.0 && b >= 0.0 && a * b == 0.0
    ensures a == 0.0 || b == 0.0
  {
    if a > 0.0 && b > 0.0 {
      MulPositive(a, b);
    }
  }

  lemma MulLess(a: real, b: real, c: real, d: real)
    requires 0.0 <= a < b && 0.0 <= c < d
    ensures a * c < b * d
  {
    assert a * c <= a * d;
  }

  lemma MulAtMost(a: real, b: real, c: real, d: real)
    requires 0.0 <= a <= b && 0.0 <= c <= d
    ensures a * c <= b * d
  {
    assert a * c <= a * d;
  }

  lemma DivMul(a: real, m: real)
    requires m != 0.0
    ensures (a / m) * m == a
  {
  }

  lemma MulFrac(a: real, b: real, c: real, d: real)
    requires b != 0.0 && d != 0.0
    ensures (a / b) * (c / d) == (a * c) / (b * d)
  {
  }

  lemma DivSum(a: real, b: real, m: real)
    requires m > 0.0
    ensures a / m + b / m == (a + b) / m
  {
  }

  lemma MulDiv(c: real, m: real, a: real)
    requires m != 0.0 && c * m == a
    ensures c == a / m
  {
  }

  /** The square root of a non-negative number is below a bound exactly when the number is
      below the bound squared, so guards on distances can be read on squared distances. */
  lemma SqrtBelow(sqrt: real -> real, v: real, bound: real)
    requires IsSqrt(sqrt) && v >= 0.0 && bound >= 0.0
    ensures Root(sqrt, v) < bound <==> v < bound * bound
  {
    var s := Root(sqrt, v);
    if s < bound {
      MulLess(s, bound, s, bound);
    } else {
      MulAtMost(bound, s, bound, s);
    }
  }

  /** `Math.sqrt(0)` is zero. */
  lemma SqrtZero(sqrt: real -> real)
    requires IsSqrt(sqrt)
    ensures Root(sqrt, 0.0) == 0.0
  {
    var s := Root(sqrt, 0.0);
    assert s >= 0.0 && s * s == 0.0;
    MulZero(s, s);
  }

  /** The square root of a positive number is positive. */
  lemma SqrtPositive(sqrt: real -> real, v: real)
    requires IsSqrt(sqrt) && v > 0.0
    ensures Root(sqrt, v) > 0.0
  {
    var s := Root(sqrt, v);
    assert s >= 0.0 && s * s == v;
  }

  /** The squared distance of an offset is non-negative, and its square root is zero when it
      is zero. */
  lemma Distance(sqrt: real -> real, dx: real, dy: real)
    requires IsSqrt(sqrt)
    ensures SquaredDistance(dx, dy) >= 0.0
    ensures SquaredDistance(dx, dy) == 0.0 ==> Root(sqrt, SquaredDistance(dx, dy)) == 0.0
  {
    if SquaredDistance(dx, dy) == 0.0 {
      SqrtZero(sqrt);
    }
  }
}
