/** How `print(int32_t val, int base)` turns a number into four symbol
    codes: the base is forced into 2..16, the value into the range that
    four digits (or a dash and three digits) can show, and the digits are
    peeled off the least significant end. */
module Numerals {
  import opened Arduino
  import opened Frames

  /** The base actually used: `constrain(base, 2, 16)`. */
  function PrintBase(base: Int32): (b: int)
    ensures 2 <= b <= 16
    ensures 2 <= base <= 16 ==> b == base
    ensures base < 2 ==> b == 2
    ensures base > 16 ==> b == 16
  {
    Constrain(base, 2, 16)
  }

  /** `max_positive`: the largest four-digit number in base b (see
      RangeEnds), between 15 and 0xFFFF. */
  function MaxPositive(b: int): (m: int)
    ensures 2 <= b <= 16 ==> 15 <= m <= 0xFFFF
  {
    b * b * b * b - 1
  }

  /** `min_negative`: minus the largest three-digit number in base b
      (see RangeEnds), between -0xFFF and -7. */
  function MinNegative(b: int): (m: int)
    ensures 2 <= b <= 16 ==> -0xFFF <= m <= -7
  {
    -(b * b * b - 1)
  }

  /** The value actually shown: `val` constrained to the printable range. */
  function Shown(val: Int32, base: Int32): (v: int)
    ensures MinNegative(PrintBase(base)) <= v <= MaxPositive(PrintBase(base))
    ensures MinNegative(PrintBase(base)) <= val <= MaxPositive(PrintBase(base)) ==> v == val
    ensures val < MinNegative(PrintBase(base)) ==> v == MinNegative(PrintBase(base))
    ensures val > MaxPositive(PrintBase(base)) ==> v == MaxPositive(PrintBase(base))
  {
    var b := PrintBase(base);
    assert b * b * b >= 1 by { Positive3(b); }
    Constrain(val, MinNegative(b), MaxPositive(b))
  }

  lemma Positive3(b: int)
    requires b >= 2
    ensures b * b >= 4
    ensures b * b * b >= 8
    ensures b * b * b * b >= 16
  {
  }

  /** The number a row of four codes stands for in base b: a dash in the
      first place negates the three-digit number after it. */
  function FromCodes(d: Codes, b: int): (v: int)
    requires 2 <= b <= 16
    ensures -0x20_0000 < v < 0x20_0000
  {
    Magnitude(d.d1, d.d2, d.d3, b);
    Magnitude4(d.d0, d.d1, d.d2, d.d3, b);
    if d.d0 == Dash then -((d.d1 * b + d.d2) * b + d.d3)
    else ((d.d0 * b + d.d1) * b + d.d2) * b + d.d3
  }

  /** Two or three bytes read as digits in a base of at most 16 stay
      small. */
  lemma Magnitude(x: UInt8, y: UInt8, z: UInt8, b: int)
    requires 2 <= b <= 16
    ensures 0 <= x * b + y <= 4335
    ensures 0 <= (x * b + y) * b + z <= 69615
  {
    MulMono(0, x, b);
    MulMono(x, 255, b);
    var h := x * b + y;
    MulMono(0, h, b);
    MulMono(h, 4335, b);
  }

  /** And so do four. */
  lemma Magnitude4(x: UInt8, y: UInt8, z: UInt8, w: UInt8, b: int)
    requires 2 <= b <= 16
    ensures 0 <= ((x * b + y) * b + z) * b + w <= 1114095
  {
    Magnitude(x, y, z, b);
    var m := (x * b + y) * b + z;
    MulMono(0, m, b);
    MulMono(m, 69615, b);
  }

  /** Codes that `print` can produce in base b: digits below b, except
      that the first may be the dash in front of a nonzero magnitude. */
  predicate WellFormed(d: Codes, b: int)
  {
    d.d1 < b && d.d2 < b && d.d3 < b &&
    (d.d0 < b || (d.d0 == Dash && (d.d1 * b + d.d2) * b + d.d3 > 0))
  }

  // ---------------------------------------------------------------------
  // Division facts

  lemma MulMono(x: int, y: int, b: int)
    requires x <= y && b >= 0
    ensures x * b <= y * b
  {
    assert (y - x) * b >= 0;
  }

  /** Dividing something below m * b by b leaves something below m. */
  lemma DivBelow(x: int, b: int, m: int)
    requires x >= 0 && b > 0 && x < m * b
    ensures 0 <= x / b < m
  {
    assert x == (x / b) * b + x % b;
    if x / b >= m {
      MulMono(m, x / b, b);
    }
  }

  /** q * b + r with 0 <= r < b has quotient q and remainder r. */
  lemma DivModUnique(q: int, r: int, b: int)
    requires q >= 0 && b > 0 && 0 <= r < b
    ensures (q * b + r) / b == q && (q * b + r) % b == r
  {
    var x := q * b + r;
    var t := x / b;
    assert x == t * b + x % b;
    if t > q {
      MulMono(q + 1, t, b);
    } else if t < q {
      MulMono(t + 1, q, b);
    }
  }

  /** Appending a digit below b to a number below m gives one below m * b. */
  lemma AppendBelow(q: int, r: int, b: int, m: int)
    requires 0 <= q < m && 0 <= r < b
    ensures 0 <= q * b + r < m * b
  {
    MulMono(q, m - 1, b);
    MulMono(0, q, b);
  }

  /** Three digits peeled off x < b^3. */
  lemma Peel3(x: int, b: int)
    requires b >= 2 && 0 <= x < b * b * b
    ensures x / b / b % b == x / b / b
    ensures x / b / b < b && x / b % b < b && x % b < b
    ensures ((x / b / b % b) * b + x / b % b) * b + x % b == x
  {
    var q1, r0 := x / b, x % b;
    var q2, r1 := q1 / b, q1 % b;
    assert x == q1 * b + r0;
    assert q1 == q2 * b + r1;
    DivBelow(x, b, b * b);
    DivBelow(q1, b, b);
    DivModUnique(0, q2, b);
    assert q2 % b == q2;
  }

  /** Four digits peeled off x < b^4. */
  lemma Peel4(x: int, b: int)
    requires b >= 2 && 0 <= x < b * b * b * b
    ensures x / b / b / b % b == x / b / b / b
    ensures x / b / b / b < b && x / b / b % b < b && x / b % b < b && x % b < b
    ensures (((x / b / b / b % b) * b + x / b / b % b) * b + x / b % b) * b + x % b == x
  {
    var q1, r0 := x / b, x % b;
    assert x == q1 * b + r0;
    DivBelow(x, b, b * b * b);
    Peel3(q1, b);
  }

  // ---------------------------------------------------------------------
  // The conversion

  /** The codes `print(val, base)` hands to `print(d0, d1, d2, d3)`. They
      stand for the shown value, with digits below the base. */
  function ToCodes(val: Int32, base: Int32): (d: Codes)
    ensures WellFormed(d, PrintBase(base))
    ensures FromCodes(d, PrintBase(base)) == Shown(val, base)
    ensures d.d0 == Dash <==> Shown(val, base) < 0
  {
    var b := PrintBase(base);
    var v := Shown(val, base);
    Positive3(b);
    if v < 0 then
      var u := -v;
      assert 0 < u < b * b * b;
      Peel3(u, b);
      var d := Codes(Dash, u / b / b % b, u / b % b, u % b);
      assert FromCodes(d, b) == -u;
      d
    else
      assert 0 <= v < b * b * b * b;
      Peel4(v, b);
      var d := Codes(v / b / b / b % b, v / b / b % b, v / b % b, v % b);
      assert d.d0 < b;
      assert FromCodes(d, b) == v;
      d
  }

  /** Four digits below b are determined by the number they stand for. */
  lemma {:induction false} UniqueDigits(d: Codes, e: Codes, b: int)
    requires b >= 2
    requires d.d0 < b && d.d1 < b && d.d2 < b && d.d3 < b
    requires e.d0 < b && e.d1 < b && e.d2 < b && e.d3 < b
    requires ((d.d0 * b + d.d1) * b + d.d2) * b + d.d3 == ((e.d0 * b + e.d1) * b + e.d2) * b + e.d3
    ensures d == e
  {
    AppendBelow(d.d0, d.d1, b, b);
    AppendBelow(e.d0, e.d1, b, b);
    AppendBelow(d.d0 * b + d.d1, d.d2, b, b * b);
    AppendBelow(e.d0 * b + e.d1, e.d2, b, b * b);
    DivModUnique((d.d0 * b + d.d1) * b + d.d2, d.d3, b);
    DivModUnique((e.d0 * b + e.d1) * b + e.d2, e.d3, b);
    DivModUnique(d.d0 * b + d.d1, d.d2, b);
    DivModUnique(e.d0 * b + e.d1, e.d2, b);
    DivModUnique(d.d0, d.d1, b);
    DivModUnique(e.d0, e.d1, b);
  }

  lemma DecodeEncodeNegative(d: Codes, b: int)
    requires 2 <= b <= 16 && WellFormed(d, b) && d.d0 == Dash
    ensures ToCodes(FromCodes(d, b), b) == d
  {
    var m := (d.d1 * b + d.d2) * b + d.d3;
    AppendBelow(d.d1, d.d2, b, b);
    AppendBelow(d.d1 * b + d.d2, d.d3, b, b * b);
    assert 0 < m < b * b * b;
    assert MinNegative(b) == -(b * b * b - 1);
    assert FromCodes(d, b) == -m;
    assert PrintBase(b) == b && Shown(-m, b) == -m;
    var e := ToCodes(-m, b);
    assert e.d0 == Dash;
    assert e.d1 < b && e.d2 < b && e.d3 < b;
    assert (e.d1 * b + e.d2) * b + e.d3 == m;
    UniqueDigits(Codes(0, d.d1, d.d2, d.d3), Codes(0, e.d1, e.d2, e.d3), b);
  }

  lemma DecodeEncodePositive(d: Codes, b: int)
    requires 2 <= b <= 16 && WellFormed(d, b) && d.d0 != Dash
    ensures ToCodes(FromCodes(d, b), b) == d
  {
    var v := FromCodes(d, b);
    AppendBelow(d.d0, d.d1, b, b);
    AppendBelow(d.d0 * b + d.d1, d.d2, b, b * b);
    AppendBelow((d.d0 * b + d.d1) * b + d.d2, d.d3, b, b * b * b);
    assert 0 <= v < b * b * b * b;
    assert MaxPositive(b) == b * b * b * b - 1;
    assert PrintBase(b) == b && Shown(v, b) == v;
    var e := ToCodes(v, b);
    assert e.d0 != Dash;
    assert e.d0 < b && e.d1 < b && e.d2 < b && e.d3 < b;
    assert ((e.d0 * b + e.d1) * b + e.d2) * b + e.d3 == v;
    UniqueDigits(d, e, b);
  }

  /** Well-formed codes are exactly what `print` produces for the number
      they stand for. */
  lemma DecodeEncode(d: Codes, base: Int32)
    requires 2 <= base <= 16
    requires WellFormed(d, base)
    ensures ToCodes(FromCodes(d, base), base) == d
  {
    if d.d0 == Dash {
      DecodeEncodeNegative(d, base);
    } else {
      DecodeEncodePositive(d, base);
    }
  }

  /** The ends of the printable range are the numbers the largest digits
      stand for: four of them for `max_positive`, a dash and three for
      `min_negative`. */
  lemma RangeEnds(b: int)
    requires 2 <= b <= 16
    ensures FromCodes(Codes(b - 1, b - 1, b - 1, b - 1), b) == MaxPositive(b)
    ensures FromCodes(Codes(Dash, b - 1, b - 1, b - 1), b) == MinNegative(b)
  {
    var c := b - 1;
    assert c * b + c == b * b - 1;
    assert (b * b - 1) * b + c == b * b * b - 1;
    assert (b * b * b - 1) * b + c == b * b * b * b - 1;
  }

  /** In base 10, the values -999..9999 are shown unchanged. */
  lemma DecimalRange(val: Int32)
    ensures PrintBase(10) == 10
    ensures MinNegative(10) == -999 && MaxPositive(10) == 9999
    ensures (Shown(val, 10) == val) <==> (-999 <= val <= 9999)
  {
  }
}
