/**
 * Currency conversion for exchanges: the rate chosen for a currency pair and
 * the converted amount, multiplied at full precision and rounded once.
 */
module Rates {
  import opened Money
  import opened Store

  /** USD_TO_EUR: 1 USD = 0.92 EUR. */
  const UsdToEur: Decimal := Decimal(92, 2)

  /**
   * The rate for converting `from` into `to`: USD_TO_EUR for USD to EUR and
   * the reverse rate `eurToUsd` for every other pair.
   */
  function RateFor(from: Currency, to: Currency, eurToUsd: Decimal): (r: Decimal)
    ensures from != to ==> r == (if from == USD then UsdToEur else eurToUsd)
    ensures from == to ==> r == eurToUsd
    ensures eurToUsd.units > 0 ==> r.units > 0
  {
    assert UsdToEur.units == 92 && (to == USD || to == EUR);
    if from == USD && to == EUR then UsdToEur else eurToUsd
  }

  /**
   * EUR_TO_USD is 1 / USD_TO_EUR as the decimal library divides: the quotient
   * rounded to the nearest unit of its last place, so units / 10^scale lies
   * within half a unit of that place of 100 / 92.
   */
  function ReverseRate(r: Decimal): (b: bool)
    ensures b ==> r.units > 0
  {
    -92 <= 2 * (92 * r.units - 100 * Pow10(r.scale)) <= 92
  }

  lemma Times100(r: int, p: int, d: int)
    requires d == 100 * p
    ensures r * d == 100 * (r * p)
  {
  }

  /** A half-cent bound on a product with scale `2 + s` is the same bound at scale `s`. */
  lemma UnscaleBound(x: int, r: int, s: nat)
    requires x >= 0 && NearestCent(Decimal(x, 2 + s), r)
    ensures -Pow10(s) <= 2 * (x - r * Pow10(s)) < Pow10(s)
  {
    var p := Pow10(s);
    var d := Pow10(2 + s);
    assert -d <= 2 * (100 * x - r * d) < d;
    Pow10Add(2, s);
    assert Pow10(2) == 100;
    Times100(r, p, d);
    assert 100 * x - r * d == 100 * (x - r * p);
  }

  /**
   * The amount credited for `amount` cents at `rate`: the exact product
   * rounded once to cents. With P = 10^rate.scale the result is the cent
   * count nearest to amount * rate, within half a cent, a tie rounding up.
   */
  function Converted(amount: int, rate: Decimal): (r: int)
    requires amount >= 0 && rate.units > 0
    ensures r >= 0
    ensures -Pow10(rate.scale) <= 2 * (amount * rate.units - r * Pow10(rate.scale)) < Pow10(rate.scale)
  {
    var x := amount * rate.units;
    var r := Round2(Mul(FromCents(amount), rate));
    UnscaleBound(x, r, rate.scale);
    r
  }

  /**
   * An exchange followed by the opposite exchange of the credited amount
   * returns the starting amount to within one cent, for any amount below
   * 10^scale cents of the reverse rate.
   */
  lemma RoundTrip(d: int, from: Currency, to: Currency, eurToUsd: Decimal)
    requires from != to && ReverseRate(eurToUsd)
    requires 0 <= d < Pow10(eurToUsd.scale)
    ensures var there := Converted(d, RateFor(from, to, eurToUsd));
            -1 <= Converted(there, RateFor(to, from, eurToUsd)) - d <= 1
  {
    var u, p := eurToUsd.units, Pow10(eurToUsd.scale);
    assert Pow10(2) == 100;
    if from == USD {
      var e := Converted(d, UsdToEur);
      UsdThereAndBack(d, e, Converted(e, eurToUsd), u, p);
    } else {
      var b := Converted(d, eurToUsd);
      EurThereAndBack(d, b, Converted(b, UsdToEur), u, p);
    }
  }

  /** Dollars `d` to euros `e` at 0.92, and back to dollars `b` at u / p. */
  lemma UsdThereAndBack(d: int, e: int, b: int, u: int, p: int)
    requires 0 <= d < p && 0 <= e
    requires -100 <= 2 * (d * 92 - e * 100) < 100
    requires -p <= 2 * (e * u - b * p) < p
    requires -92 <= 2 * (92 * u - 100 * p) <= 92
    ensures -1 <= b - d <= 1
  {
    var x := 92 * u - 100 * p;
    var w := 100 * e - 92 * d;
    assert e < p;
    MulMonotone(46, x, e);
    MulMonotone(x, -46, e);
    MulMonotone(50, w, p);
    MulMonotone(w, -50, p);
    UsdIdentity(d, e, b, u, p);
    if b - d >= 2 {
      MulMonotone(b - d, 2, p);
    } else if b - d <= -2 {
      MulMonotone(-2, b - d, p);
    }
  }

  /** Euros `d` to dollars `b` at u / p, and back to euros `e` at 0.92. */
  lemma EurThereAndBack(d: int, b: int, e: int, u: int, p: int)
    requires 0 <= d < p
    requires -p <= 2 * (d * u - b * p) < p
    requires -100 <= 2 * (b * 92 - e * 100) < 100
    requires -92 <= 2 * (92 * u - 100 * p) <= 92
    ensures -1 <= e - d <= 1
  {
    var x := 92 * u - 100 * p;
    var w := 100 * e - 92 * b;
    MulMonotone(46, x, d);
    MulMonotone(x, -46, d);
    MulMonotone(50, w, p);
    MulMonotone(w, -50, p);
    EurIdentity(d, b, e, u, p);
    if e - d >= 2 {
      MulMonotone(e - d, 2, p);
    } else if e - d <= -2 {
      MulMonotone(-2, e - d, p);
    }
  }

  lemma UsdIdentity(d: int, e: int, b: int, u: int, p: int)
    ensures 184 * ((b - d) * p)
         == 184 * (b * p - e * u) + 2 * ((92 * u - 100 * p) * e) + 2 * ((100 * e - 92 * d) * p)
  {
  }

  lemma EurIdentity(d: int, b: int, e: int, u: int, p: int)
    ensures 200 * ((e - d) * p)
         == 2 * ((100 * e - 92 * b) * p) + 184 * (b * p - d * u) + 2 * ((92 * u - 100 * p) * d)
  {
  }
}
