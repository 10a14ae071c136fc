/**
 * Fixed-point money. Balances and recorded amounts are whole numbers of cents;
 * a caller-supplied amount or an exchange rate is a finite decimal number,
 * `units / 10^scale`, as the decimal library holds it.
 */
module Money {

  /** The decimal number `units / 10^scale`. */
  datatype Decimal = Decimal(units: int, scale: nat)

  function Pow10(n: nat): (p: int)
    ensures p >= 1
    ensures n >= 1 ==> p % 2 == 0
  {
    if n == 0 then 1 else 10 * Pow10(n - 1)
  }

  lemma {:induction false} Pow10Add(a: nat, b: nat)
    ensures Pow10(a + b) == Pow10(a) * Pow10(b)
  {
    if a > 0 {
      Pow10Add(a - 1, b);
      var x, y := Pow10(a - 1), Pow10(b);
      calc {
        Pow10(a + b);
        10 * Pow10(a - 1 + b);
        10 * (x * y);
        { MulAssoc(10, x, y); }
        (10 * x) * y;
      }
    }
  }

  lemma MulAssoc(a: int, b: int, c: int)
    ensures a * (b * c) == (a * b) * c
  {
  }

  lemma MulMonotone(a: int, b: int, c: int)
    requires a >= b && c >= 0
    ensures a * c >= b * c
  {
  }

  /** A whole number of cents as a decimal with two places. */
  function FromCents(cents: int): Decimal
  {
    Decimal(cents, 2)
  }

  /** The number a decimal stands for. */
  ghost function Value(x: Decimal): real
  {
    x.units as real / Pow10(x.scale) as real
  }

  /** The exact product of two decimals. */
  function Mul(a: Decimal, b: Decimal): Decimal
  {
    Decimal(a.units * b.units, a.scale + b.scale)
  }

  /** `Mul` loses nothing: the product stands for the product of the two numbers. */
  lemma MulValue(a: Decimal, b: Decimal)
    ensures Value(Mul(a, b)) == Value(a) * Value(b)
  {
    var m := Mul(a, b);
    assert m.units == a.units * b.units && m.scale == a.scale + b.scale;
    Pow10Add(a.scale, b.scale);
    QuotientProduct(a.units, b.units, Pow10(a.scale), Pow10(b.scale), Pow10(m.scale));
  }

  /** Multiplying two fractions of integers multiplies numerators and denominators. */
  lemma QuotientProduct(m: int, n: int, p: int, q: int, pq: int)
    requires p > 0 && q > 0 && pq == p * q
    ensures (m * n) as real / pq as real == (m as real / p as real) * (n as real / q as real)
  {
    IntProductAsReal(m, n);
    IntProductAsReal(p, q);
    RealQuotients(m as real, p as real, n as real, q as real);
  }

  lemma IntProductAsReal(m: int, n: int)
    ensures (m * n) as real == m as real * n as real
  {
  }

  lemma RealQuotients(x: real, p: real, y: real, q: real)
    requires p > 0.0 && q > 0.0
    ensures (x * y) / (p * q) == (x / p) * (y / q)
  {
  }

  /** `a / q` rounded to the nearest whole number, a tie going up. */
  function HalfUp(a: int, q: int): (r: int)
    requires a >= 0 && q > 0 && q % 2 == 0
    ensures r >= 0
    ensures -q <= 2 * (a - r * q) < q
  {
    var r := (a + q / 2) / q;
    var m := (a + q / 2) % q;
    assert a + q / 2 == r * q + m && 0 <= m < q;
    r
  }

  /**
   * `r` is the number of cents nearest to `x`, a tie going away from zero.
   * With D = 10^x.scale, `100 * x.units - r * D` is the rounding error in
   * units of 1/D of a cent: at most half a cent, and at a tie the result
   * lies farther from zero than `x`.
   */
  ghost predicate NearestCent(x: Decimal, r: int)
  {
    var d: int := Pow10(x.scale);
    var e := 100 * x.units - r * d;
    && -d <= 2 * e <= d
    && (x.units >= 0 ==> 2 * e < d)
    && (x.units <= 0 ==> -d < 2 * e)
  }

  lemma NearestCentExact(x: Decimal, k: int)
    requires x.scale <= 2 && k == Pow10(2 - x.scale)
    ensures NearestCent(x, x.units * k)
    ensures (x.units * k) * Pow10(x.scale) == 100 * x.units
  {
    Pow10Add(x.scale, 2 - x.scale);
    assert Pow10(x.scale) * k == 100;
    assert (x.units * k) * Pow10(x.scale) == x.units * (k * Pow10(x.scale));
  }

  lemma NearestCentScaled(x: Decimal, q: int, r: int)
    requires x.scale > 2 && q == Pow10(x.scale - 2)
    requires x.units >= 0 ==> -q <= 2 * (x.units - r * q) < q
    requires x.units < 0 ==> -q < 2 * (x.units - r * q) <= q
    ensures NearestCent(x, r)
  {
    Pow10Add(2, x.scale - 2);
    assert Pow10(2) == 100;
    var d := Pow10(x.scale);
    assert r * d == 100 * (r * q);
    assert 2 * (100 * x.units - r * d) == 100 * (2 * (x.units - r * q));
  }

  /**
   * The decimal library's `toDecimalPlaces(2)` with its default rounding
   * mode, which rounds half away from zero, counted in cents.
   */
  function Round2(x: Decimal): (r: int)
    ensures NearestCent(x, r)
    ensures x.scale <= 2 ==> r * Pow10(x.scale) == 100 * x.units
    ensures x.units >= 0 ==> r >= 0
  {
    if x.scale <= 2 then
      var k := Pow10(2 - x.scale);
      NearestCentExact(x, k);
      x.units * k
    else
      var q := Pow10(x.scale - 2);
      if x.units >= 0 then
        var r := HalfUp(x.units, q);
        NearestCentScaled(x, q, r);
        r
      else
        var r := HalfUp(-x.units, q);
        NearestCentScaled(x, q, -r);
        -r
  }
}
