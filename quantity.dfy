/** `literals::Quantity<M, L, T>`: a number tagged with the exponents of
    mass, length and time. The C++ type carries the exponents as template
    arguments, so mismatched dimensions are compile-time errors; here the
    exponents are a field of the value, and the operations that need equal
    dimensions require them. `double` is modelled as `real`. */
module Quantities {

  /** The three exponents, as `dim()` returns them. */
  datatype Dims = Dims(m: int, l: int, t: int)

  function Plus(a: Dims, b: Dims): Dims
  {
    Dims(a.m + b.m, a.l + b.l, a.t + b.t)
  }

  function Minus(a: Dims, b: Dims): Dims
  {
    Dims(a.m - b.m, a.l - b.l, a.t - b.t)
  }

  datatype Quantity = Quantity(v: real, dims: Dims)

  const DimLess := Dims(0, 0, 0)
  const Mass := Dims(1, 0, 0)
  const Length := Dims(0, 1, 0)
  const Duration := Dims(0, 0, 1)
  const Velocity := Dims(0, 1, -1)
  const Acceleration := Dims(0, 1, -2)
  const Jerk := Dims(0, 1, -3)
  const Force := Dims(1, 1, -2)
  const Energy := Dims(1, 2, -2)
  const Power := Dims(1, 2, -3)
  const Frequency := Dims(0, 0, -1)

  // ---------------------------------------------------------------------
  // Operators

  /** `q1 * q2`: exponents add. */
  function Mul(a: Quantity, b: Quantity): (r: Quantity)
    ensures r.dims == Plus(a.dims, b.dims)
    ensures r.v == a.v * b.v
  {
    Quantity(a.v * b.v, Plus(a.dims, b.dims))
  }

  /** `q1 / q2`: exponents subtract. */
  function Div(a: Quantity, b: Quantity): (r: Quantity)
    requires b.v != 0.0
    ensures r.dims == Minus(a.dims, b.dims)
    ensures r.v * b.v == a.v
  {
    Quantity(a.v / b.v, Minus(a.dims, b.dims))
  }

  /** `q1 + q2`, defined only for equal dimensions, which it keeps. */
  function Add(a: Quantity, b: Quantity): (r: Quantity)
    requires a.dims == b.dims
    ensures r.dims == a.dims == b.dims
    ensures r.v == a.v + b.v
  {
    Quantity(a.v + b.v, a.dims)
  }

  /** `q1 - q2`, defined only for equal dimensions, which it keeps. */
  function Sub(a: Quantity, b: Quantity): (r: Quantity)
    requires a.dims == b.dims
    ensures r.dims == a.dims == b.dims
    ensures r.v + b.v == a.v
  {
    Quantity(a.v - b.v, a.dims)
  }

  /** `q * s` */
  function Scale(q: Quantity, s: real): (r: Quantity)
    ensures r.dims == q.dims
    ensures r.v == q.v * s
  {
    Quantity(q.v * s, q.dims)
  }

  /** `s * q` */
  function ScaleLeft(s: real, q: Quantity): (r: Quantity)
    ensures r.dims == q.dims
    ensures r.v == s * q.v
  {
    Quantity(s * q.v, q.dims)
  }

  /** `q / s` */
  function DivScalar(q: Quantity, s: real): (r: Quantity)
    requires s != 0.0
    ensures r.dims == q.dims
    ensures r.v * s == q.v
  {
    Quantity(q.v / s, q.dims)
  }

  /** `s / q` as the header declares it: the result carries q's own
      exponents. */
  function ScalarDivAsWritten(s: real, q: Quantity): (r: Quantity)
    requires q.v != 0.0
    ensures r.dims == q.dims
    ensures r.v * q.v == s
  {
    Quantity(s / q.v, q.dims)
  }

  /** `s / q` with the exponents of a quotient: those of q negated. */
  function ScalarDiv(s: real, q: Quantity): (r: Quantity)
    requires q.v != 0.0
    ensures r.dims == Minus(DimLess, q.dims)
    ensures r.v * q.v == s
  {
    Quantity(s / q.v, Minus(DimLess, q.dims))
  }

  /** The comparisons, defined only for equal dimensions, compare the
      numbers. */
  function Eq(a: Quantity, b: Quantity): (r: bool)
    requires a.dims == b.dims
    ensures r == (a == b)
  {
    a.v == b.v
  }

  function Ne(a: Quantity, b: Quantity): (r: bool)
    requires a.dims == b.dims
    ensures r == !Eq(a, b)
  {
    a.v != b.v
  }

  function Lt(a: Quantity, b: Quantity): (r: bool)
    requires a.dims == b.dims
    ensures r ==> !Eq(a, b)
    ensures r || Eq(a, b) || b.v < a.v
  {
    a.v < b.v
  }

  function Gt(a: Quantity, b: Quantity): (r: bool)
    requires a.dims == b.dims
    ensures r == Lt(b, a)
  {
    a.v > b.v
  }

  function Le(a: Quantity, b: Quantity): (r: bool)
    requires a.dims == b.dims
    ensures r == (Lt(a, b) || Eq(a, b))
  {
    a.v <= b.v
  }

  function Ge(a: Quantity, b: Quantity): (r: bool)
    requires a.dims == b.dims
    ensures r == Le(b, a)
  {
    a.v >= b.v
  }

  // ---------------------------------------------------------------------
  // Literal suffixes. Each one exists for `long double` and for
  // `unsigned long long`; both convert to `double` first, so one `real`
  // parameter stands for both. Each gives its alias's exponents and the
  // amount in the base unit (second, kilogram, metre and the units
  // derived from them).

  function Seconds(x: real): (r: Quantity)
    ensures r.dims == Duration && r.v == x
  {
    Quantity(x, Duration)
  }
  function Millis(x: real): (r: Quantity)
    ensures r.dims == Duration && r.v * 1000.0 == x
  {
    Quantity(x / 1000.0, Duration)
  }
  function Micros(x: real): (r: Quantity)
    ensures r.dims == Duration && r.v * 1000000.0 == x
  {
    DivScalar(Quantity(x, Duration), 1000000.0)
  }

  function Kilograms(x: real): (r: Quantity)
    ensures r.dims == Mass && r.v == x
  {
    Quantity(x, Mass)
  }
  function Grams(x: real): (r: Quantity)
    ensures r.dims == Mass && r.v * 1000.0 == x
  {
    Quantity(x / 1000.0, Mass)
  }

  function Kilometres(x: real): (r: Quantity)
    ensures r.dims == Length && r.v == 1000.0 * x
  {
    Scale(Quantity(x, Length), 1000.0)
  }
  function Metres(x: real): (r: Quantity)
    ensures r.dims == Length && r.v == x
  {
    Quantity(x, Length)
  }
  function Millimetres(x: real): (r: Quantity)
    ensures r.dims == Length && r.v * 1000.0 == x
  {
    DivScalar(Quantity(x, Length), 1000.0)
  }

  function KiloNewtons(x: real): (r: Quantity)
    ensures r.dims == Force && r.v == 1000.0 * x
  {
    Scale(Quantity(x, Force), 1000.0)
  }
  function Newtons(x: real): (r: Quantity)
    ensures r.dims == Force && r.v == x
  {
    Quantity(x, Force)
  }
  function MilliNewtons(x: real): (r: Quantity)
    ensures r.dims == Force && r.v * 1000.0 == x
  {
    DivScalar(Quantity(x, Force), 1000.0)
  }

  function KiloJoules(x: real): (r: Quantity)
    ensures r.dims == Energy && r.v == 1000.0 * x
  {
    Scale(Quantity(x, Energy), 1000.0)
  }
  function Joules(x: real): (r: Quantity)
    ensures r.dims == Energy && r.v == x
  {
    Quantity(x, Energy)
  }
  function MilliJoules(x: real): (r: Quantity)
    ensures r.dims == Energy && r.v * 1000.0 == x
  {
    DivScalar(Quantity(x, Energy), 1000.0)
  }

  function KiloWatts(x: real): (r: Quantity)
    ensures r.dims == Power && r.v == 1000.0 * x
  {
    Scale(Quantity(x, Power), 1000.0)
  }
  function Watts(x: real): (r: Quantity)
    ensures r.dims == Power && r.v == x
  {
    Quantity(x, Power)
  }
  function MilliWatts(x: real): (r: Quantity)
    ensures r.dims == Power && r.v * 1000.0 == x
  {
    DivScalar(Quantity(x, Power), 1000.0)
  }

  function Hertz(x: real): (r: Quantity)
    ensures r.dims == Frequency && r.v == x
  {
    Quantity(x, Frequency)
  }

  // ---------------------------------------------------------------------
  // Properties

  /** Each suffix produces the dimension its alias names. */
  lemma LiteralDims(x: real)
    ensures Seconds(x).dims == Millis(x).dims == Micros(x).dims == Dims(0, 0, 1)
    ensures Kilograms(x).dims == Grams(x).dims == Dims(1, 0, 0)
    ensures Kilometres(x).dims == Metres(x).dims == Millimetres(x).dims == Dims(0, 1, 0)
    ensures KiloNewtons(x).dims == Newtons(x).dims == MilliNewtons(x).dims == Dims(1, 1, -2)
    ensures KiloJoules(x).dims == Joules(x).dims == MilliJoules(x).dims == Dims(1, 2, -2)
    ensures KiloWatts(x).dims == Watts(x).dims == MilliWatts(x).dims == Dims(1, 2, -3)
    ensures Hertz(x).dims == Dims(0, 0, -1)
  {
  }

  /** The prefixes scale by a thousand (a million for `us`): a thousand
      of the smaller unit is one of the larger. */
  lemma LiteralScales(x: real)
    ensures Millis(1000.0 * x) == Seconds(x)
    ensures Micros(1000.0 * x) == Millis(x)
    ensures Grams(1000.0 * x) == Kilograms(x)
    ensures Kilometres(x) == Metres(1000.0 * x)
    ensures Millimetres(1000.0 * x) == Metres(x)
    ensures KiloNewtons(x) == Newtons(1000.0 * x) && MilliNewtons(1000.0 * x) == Newtons(x)
    ensures KiloJoules(x) == Joules(1000.0 * x) && MilliJoules(1000.0 * x) == Joules(x)
    ensures KiloWatts(x) == Watts(1000.0 * x) && MilliWatts(1000.0 * x) == Watts(x)
  {
  }

  /** The aliases are consistent with the operators: m / s is a velocity,
      a velocity per second an acceleration, an acceleration per second a
      jerk, kg times an acceleration a force, a force over a distance an
      energy, an energy per second a power, and Hz times s a plain
      number. */
  lemma DerivedDims(a: real, b: real)
    requires b != 0.0
    ensures Div(Metres(a), Seconds(b)).dims == Velocity
    ensures Div(Quantity(a, Velocity), Seconds(b)).dims == Acceleration
    ensures Div(Quantity(a, Acceleration), Seconds(b)).dims == Jerk
    ensures Mul(Kilograms(a), Quantity(b, Acceleration)).dims == Force
    ensures Mul(Newtons(a), Metres(b)).dims == Energy
    ensures Div(Joules(a), Seconds(b)).dims == Power
    ensures Mul(Hertz(a), Seconds(b)).dims == DimLess
  {
  }

  /** Multiplication commutes and associates, on numbers and exponents. */
  lemma MulAlgebra(a: Quantity, b: Quantity, c: Quantity)
    ensures Mul(a, b) == Mul(b, a)
    ensures Mul(Mul(a, b), c) == Mul(a, Mul(b, c))
  {
  }

  /** Dividing undoes multiplying, and the other way round. */
  lemma MulDivInverse(a: Quantity, b: Quantity)
    requires b.v != 0.0
    ensures Div(Mul(a, b), b) == a
    ensures Mul(Div(a, b), b) == a
  {
  }

  /** Subtracting undoes adding. */
  lemma AddSubInverse(a: Quantity, b: Quantity)
    requires a.dims == b.dims
    ensures Sub(Add(a, b), b) == a
    ensures Add(Sub(a, b), b) == a
  {
  }

  /** A scalar on either side is the same scaling, and dividing by s
      undoes it. */
  lemma ScaleInverse(q: Quantity, s: real)
    requires s != 0.0
    ensures Scale(q, s) == ScaleLeft(s, q)
    ensures DivScalar(Scale(q, s), s) == q
  {
  }

  /** The six comparisons agree with each other: `!=` negates `==`,
      `>` and `>=` mirror `<` and `<=`, `<=` is `<` or `==`, and exactly
      one of `<`, `==`, `>` holds. */
  lemma Comparisons(a: Quantity, b: Quantity)
    requires a.dims == b.dims
    ensures Ne(a, b) == !Eq(a, b)
    ensures Gt(a, b) == Lt(b, a) && Ge(a, b) == Le(b, a)
    ensures Le(a, b) == (Lt(a, b) || Eq(a, b))
    ensures Eq(a, b) == (a == b)
    ensures Lt(a, b) || Eq(a, b) || Gt(a, b)
    ensures !(Lt(a, b) && Eq(a, b)) && !(Lt(a, b) && Gt(a, b)) && !(Eq(a, b) && Gt(a, b))
  {
  }

  /** `s / q` as written gives `1.0 / 2s` the exponents of a duration,
      so the reciprocal of a duration times that duration is not
      dimensionless; the corrected quotient is a frequency, and gives 1. */
  lemma ScalarDivDims()
    ensures ScalarDivAsWritten(1.0, Seconds(2.0)).dims == Duration
    ensures Mul(ScalarDivAsWritten(1.0, Seconds(2.0)), Seconds(2.0)).dims == Dims(0, 0, 2)
    ensures ScalarDiv(1.0, Seconds(2.0)).dims == Frequency
    ensures Mul(ScalarDiv(1.0, Seconds(2.0)), Seconds(2.0)) == Quantity(1.0, DimLess)
  {
    ScalarDivIsQuotient(1.0, Seconds(2.0));
  }

  /** The corrected `s / q` is dividing a dimensionless s by q, and its
      product with q is s; the version as written agrees with it only for
      dimensionless q. */
  lemma ScalarDivIsQuotient(s: real, q: Quantity)
    requires q.v != 0.0
    ensures ScalarDiv(s, q) == Div(Quantity(s, DimLess), q)
    ensures Mul(ScalarDiv(s, q), q) == Quantity(s, DimLess)
    ensures (ScalarDivAsWritten(s, q) == ScalarDiv(s, q)) == (q.dims == DimLess)
  {
  }
}
