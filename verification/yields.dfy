/**
 * Yield computation and the qualification filter written inline in `run()`
 * (main.py:250-262): gross and net yield of a listing, the price band, and the
 * minimum-yield filter.
 *
 * Amounts are exact reals. `round(..., 2)` is round-half-to-even on the exact value;
 * the binary floating-point error of the source's `float` is not modelled.
 */
module Yields {
  import opened Options

  /** Thresholds read from the configuration (main.py:210, 213-214). */
  datatype Config = Config(minYield: real, priceMin: real, priceMax: real)

  /** `round(x, 2)` on an exact value: nearest multiple of 0.01, ties to the even multiple. */
  function Round2(x: real): (r: real)
    ensures -0.005 <= r - x <= 0.005
    ensures (r * 100.0).Floor as real == r * 100.0
  {
    var y := x * 100.0;
    var f := y.Floor;
    var frac := y - f as real;
    var n := if frac < 0.5 then f else if frac > 0.5 then f + 1 else if f % 2 == 0 then f else f + 1;
    assert (n as real / 100.0) * 100.0 == n as real;
    n as real / 100.0
  }

  /** Rounding never reverses the order of two values. */
  lemma Round2Monotone(x: real, y: real)
    requires x <= y
    ensures Round2(x) <= Round2(y)
  {
    var fx, fy := (x * 100.0).Floor, (y * 100.0).Floor;
    assert fx <= fy;
    if fx == fy {
      assert x * 100.0 - fx as real <= y * 100.0 - fy as real;
    }
  }

  /** A value with at most two decimals is left as it is. */
  lemma Round2Exact(x: real, n: int)
    requires x * 100.0 == n as real
    ensures Round2(x) == x
  {
    assert (x * 100.0).Floor == n;
  }

  /** Python truthiness of an optional amount: present and non-zero. */
  predicate Truthy(x: Option<real>) {
    x.Some? && x.value != 0.0
  }

  /** The guard of main.py:257-258, `prix and loyer and prix > 0`. */
  predicate HasYields(price: Option<real>, rent: Option<real>) {
    Truthy(price) && Truthy(rent) && price.value > 0.0
  }

  /** Gross yield (main.py:257): annual rent over price, in percent, rounded to two decimals. */
  function GrossYield(price: Option<real>, rent: Option<real>): (r: Option<real>)
    ensures r.Some? <==> HasYields(price, rent)
    ensures r.Some? ==> -0.005 <= r.value - rent.value / price.value * 100.0 <= 0.005
  {
    if HasYields(price, rent) then Some(Round2(rent.value / price.value * 100.0)) else None
  }

  /**
   * Net yield (main.py:258): rent less charges and property tax, a missing deduction
   * counting as zero, over price, in percent, rounded to two decimals.
   */
  function NetYield(price: Option<real>, rent: Option<real>, charges: Option<real>, tax: Option<real>): (r: Option<real>)
    ensures r.Some? <==> HasYields(price, rent)
    ensures r.Some? ==>
      -0.005 <= r.value - (rent.value - charges.GetOr(0.0) - tax.GetOr(0.0)) / price.value * 100.0 <= 0.005
  {
    if HasYields(price, rent) then
      Some(Round2((rent.value - charges.GetOr(0.0) - tax.GetOr(0.0)) / price.value * 100.0))
    else
      None
  }

  /** With non-negative deductions the net yield never exceeds the gross yield, even after rounding. */
  lemma NetNeverAboveGross(price: Option<real>, rent: Option<real>, charges: Option<real>, tax: Option<real>)
    requires charges.GetOr(0.0) >= 0.0 && tax.GetOr(0.0) >= 0.0
    requires HasYields(price, rent)
    ensures NetYield(price, rent, charges, tax).value <= GrossYield(price, rent).value
  {
    var p, r := price.value, rent.value;
    var left := r - charges.GetOr(0.0) - tax.GetOr(0.0);
    PercentMonotone(left, r, p);
    Round2Monotone(left / p * 100.0, r / p * 100.0);
  }

  /** Dividing by a positive price and scaling to a percentage keeps the order. */
  lemma PercentMonotone(a: real, b: real, p: real)
    requires a <= b && p > 0.0
    ensures a / p * 100.0 <= b / p * 100.0
  {
    assert b / p - a / p == (b - a) / p;
  }

  /** Missing charges and tax are deducted as zero: the net yield is then the gross yield. */
  lemma MissingDeductionsCountAsZero(price: Option<real>, rent: Option<real>)
    ensures NetYield(price, rent, None, None) == NetYield(price, rent, Some(0.0), Some(0.0))
    ensures NetYield(price, rent, None, None) == GrossYield(price, rent)
  {
  }

  /** The worked example: 90 000 rent, 8 000 deductions, 1 000 000 price: 9 % gross, 8.2 % net. */
  lemma YieldExample()
    ensures GrossYield(Some(1000000.0), Some(90000.0)) == Some(9.0)
    ensures NetYield(Some(1000000.0), Some(90000.0), Some(5000.0), Some(3000.0)) == Some(8.2)
  {
    Round2Exact(90000.0 / 1000000.0 * 100.0, 900);
    Round2Exact((90000.0 - 5000.0 - 3000.0) / 1000000.0 * 100.0, 820);
  }

  // ---------------------------------------------------------------------------
  // Qualification filter (main.py:253, 261)
  // ---------------------------------------------------------------------------

  /** main.py:253: a known price outside `[priceMin, priceMax]` is rejected. */
  predicate PriceRejected(price: Option<real>, cfg: Config) {
    price.Some? && (price.value < cfg.priceMin || price.value > cfg.priceMax)
  }

  /** main.py:261: rejected when both yields, a missing one read as 0, are below the minimum. */
  predicate YieldRejected(gross: Option<real>, net: Option<real>, cfg: Config) {
    gross.GetOr(0.0) < cfg.minYield && net.GetOr(0.0) < cfg.minYield
  }

  /**
   * A listing survives both filters of `run()`: its price is in the band or unknown,
   * and at least one of its yields reaches the minimum.
   */
  function Qualifies(price: Option<real>, rent: Option<real>, charges: Option<real>, tax: Option<real>, cfg: Config): (ok: bool)
    ensures ok ==> price.None? || cfg.priceMin <= price.value <= cfg.priceMax
    ensures ok ==> (GrossYield(price, rent).GetOr(0.0) >= cfg.minYield
                    || NetYield(price, rent, charges, tax).GetOr(0.0) >= cfg.minYield)
    ensures !ok ==> PriceRejected(price, cfg) || YieldRejected(GrossYield(price, rent), NetYield(price, rent, charges, tax), cfg)
  {
    !PriceRejected(price, cfg) && !YieldRejected(GrossYield(price, rent), NetYield(price, rent, charges, tax), cfg)
  }

  /** An unknown price is never rejected by the band, and both ends of the band are inside it. */
  lemma PriceBandInclusive(price: Option<real>, cfg: Config)
    requires price.None? || price.value == cfg.priceMin || price.value == cfg.priceMax
    requires cfg.priceMin <= cfg.priceMax
    ensures !PriceRejected(price, cfg)
  {
  }

  /** Either yield alone reaching the minimum, with equality counting, passes the yield filter. */
  lemma EitherYieldSuffices(gross: Option<real>, net: Option<real>, cfg: Config)
    requires gross.GetOr(0.0) >= cfg.minYield || net.GetOr(0.0) >= cfg.minYield
    ensures !YieldRejected(gross, net, cfg)
  {
  }

  /** The boundary example: with an 8 % minimum, 7.99 % gross is rejected and 8 % gross passes. */
  lemma YieldBoundaryExample()
    ensures YieldRejected(Some(7.99), None, Config(8.0, 0.0, 1000000000000.0))
    ensures !YieldRejected(Some(8.0), None, Config(8.0, 0.0, 1000000000000.0))
  {
  }

  /**
   * With non-negative deductions the net yield adds nothing to the filter: a listing
   * passes the yield filter exactly when its gross yield reaches the minimum, or the
   * minimum is not positive and no yield could be computed.
   */
  lemma YieldFilterIsGrossFilter(price: Option<real>, rent: Option<real>, charges: Option<real>, tax: Option<real>, cfg: Config)
    requires charges.GetOr(0.0) >= 0.0 && tax.GetOr(0.0) >= 0.0
    ensures !YieldRejected(GrossYield(price, rent), NetYield(price, rent, charges, tax), cfg)
        <==> GrossYield(price, rent).GetOr(0.0) >= cfg.minYield
  {
    if HasYields(price, rent) {
      NetNeverAboveGross(price, rent, charges, tax);
    }
  }

  /** With a positive minimum, a listing whose yields cannot be computed never qualifies. */
  lemma NoYieldNoQualification(price: Option<real>, rent: Option<real>, charges: Option<real>, tax: Option<real>, cfg: Config)
    requires cfg.minYield > 0.0
    requires !HasYields(price, rent)
    ensures !Qualifies(price, rent, charges, tax, cfg)
  {
  }
}
