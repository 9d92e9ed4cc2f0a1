/** Shared values and small helpers used across the model of the rocket-engine
    sizing tool: the physical constants, an option type, reals extended with
    infinity, and the rounding operations the source borrows from Python. */
module Common {

  /** Degrees to radians, math.pi / 180. */
  const DEG_TO_RAD: real := PI / 180.0

  /** Standard gravitational acceleration [m/s^2]. */
  const G0: real := 9.80665

  /** The value of math.pi as a fixed positive constant. */
  const PI: real := 3.141592653589793

  /** Stefan-Boltzmann constant [W/(m^2 K^4)]. */
  const STEFAN_BOLTZMANN: real := 5.670374419e-8

  /** x ** e for the fractional exponents the source uses; its values are
      not modelled beyond the facts each lemma states about them. */
  type PowFn = (real, real) -> real

  datatype Option<+T> = None | Some(value: T)

  /** The Python exception kinds the modelled code raises. */
  datatype PyError = KeyError | ValueError | TypeError | RuntimeError

  /** A value, or the exception raised instead of returning one. */
  datatype Outcome<+T> = Ok(value: T) | Fail(error: PyError)

  /** A float that may be +inf (Python's float("inf")). */
  datatype Extended = Finite(value: real) | PosInf

  function Abs(x: real): (r: real)
    ensures r >= 0.0 && (r == x || r == -x)
  {
    if x < 0.0 then -x else x
  }

  function Max(a: real, b: real): (r: real)
    ensures r >= a && r >= b && (r == a || r == b)
  {
    if a >= b then a else b
  }

  function Min(a: real, b: real): (r: real)
    ensures r <= a && r <= b && (r == a || r == b)
  {
    if a <= b then a else b
  }

  /** Python's int() on a float: truncation toward zero. */
  function Trunc(x: real): (n: int)
    ensures x >= 0.0 ==> n as real <= x < n as real + 1.0
    ensures x < 0.0 ==> n as real - 1.0 < x <= n as real
  {
    if x >= 0.0 then x.Floor else -((-x).Floor)
  }

  /** int() truncation never reverses order. */
  lemma TruncMono(x: real, y: real)
    requires x <= y
    ensures Trunc(x) <= Trunc(y)
  {
  }

  /** Python's round() on a float: to the nearest integer, ties to even. */
  function RoundHalfEven(x: real): (n: int)
    ensures n as real - 0.5 <= x <= n as real + 0.5
    ensures (n as real - x == 0.5 || x - n as real == 0.5) ==> n % 2 == 0
  {
    var f := x.Floor;
    var frac := x - f as real;
    if frac < 0.5 then f
    else if frac > 0.5 then f + 1
    else if f % 2 == 0 then f
    else f + 1
  }
}
