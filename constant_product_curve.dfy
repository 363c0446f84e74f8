/**
 * The pricing and share arithmetic the AMM delegates to the external `constant_product_curve`
 * crate. That crate is not part of this model, so the bodies below are an ASSUMED contract for it,
 * written out as integer formulas:
 *   - a swap takes the fee (in basis points) on the input, rounded down, and pays out as much of
 *     the other reserve as keeps `reserve_in * reserve_out` from decreasing, rounded in the pool's
 *     favour;
 *   - a withdrawal of `a` of `l` LP units pays `floor(a * reserve / l)` of each reserve.
 * The lemmas and ensures clauses here are the properties the AMM relies on.
 */
module ConstantProductCurve {
  import opened Common

  /** Fees are expressed in basis points of this denominator. */
  const FEE_DENOMINATOR: nat := 10000

  datatype LiquidityPair = X | Y

  datatype CurveError = InvalidFeeAmount | ZeroBalance | SlippageLimitExceeded

  /** The curve's view of a pool: both reserves, the LP amount it was given, the fee, the precision. */
  datatype Curve = Curve(x: nat, y: nat, l: nat, fee: nat, precision: Option<nat>)

  /** What a swap moves: `deposit` into the input reserve, `withdraw` out of the other one. */
  datatype SwapResult = SwapResult(deposit: nat, withdraw: nat, fee: nat)

  datatype XYAmounts = XYAmounts(x: nat, y: nat)

  /** `ConstantProduct::init`: assumed to reject only a fee above 100%. */
  function Init(x: nat, y: nat, l: nat, fee: nat, precision: Option<nat>): (r: Result<Curve, CurveError>)
    ensures r.Ok? <==> fee <= FEE_DENOMINATOR
    ensures r.Ok? ==> r.value.x == x && r.value.y == y && r.value.fee == fee
  {
    if fee > FEE_DENOMINATOR then Err(InvalidFeeAmount) else Ok(Curve(x, y, l, fee, precision))
  }

  /** The part of `amount` that trades after the fee; the fee is rounded up (pool's favour). */
  function AmountAfterFee(amount: nat, fee: nat): (r: nat)
    requires fee <= FEE_DENOMINATOR
    ensures r <= amount
    ensures r * FEE_DENOMINATOR <= amount * (FEE_DENOMINATOR - fee) < (r + 1) * FEE_DENOMINATOR
  {
    var r := amount * (FEE_DENOMINATOR - fee) / FEE_DENOMINATOR;
    MulLeftMono(FEE_DENOMINATOR - fee, FEE_DENOMINATOR, amount);
    DivBelow(amount * (FEE_DENOMINATOR - fee), FEE_DENOMINATOR, amount);
    r
  }

  /** Division rounded up. */
  function CeilDiv(a: nat, d: nat): (q: nat)
    requires d > 0
    ensures a <= q * d < a + d
  {
    (a + d - 1) / d
  }

  /**
   * Output of a trade of `amountIn` into reserves (reserveIn, reserveOut): the new output reserve
   * is the product divided by the new input reserve, rounded UP, so the trader receives the
   * floor of the exact constant-product amount.
   */
  function SwapOutput(reserveIn: nat, reserveOut: nat, amountIn: nat, fee: nat): (out: nat)
    requires fee <= FEE_DENOMINATOR && reserveIn > 0
    ensures out <= reserveOut
  {
    var newIn := reserveIn + AmountAfterFee(amountIn, fee);
    var newOut := CeilDiv(reserveIn * reserveOut, newIn);
    MulLeftMono(reserveIn, newIn, reserveOut);
    CeilDivBelow(reserveIn * reserveOut, newIn, reserveOut);
    reserveOut - newOut
  }

  /** `ConstantProduct::swap`: rejects a zero trade or an empty reserve, then the slippage floor. */
  function Swap(c: Curve, pair: LiquidityPair, amount: nat, min: nat): (r: Result<SwapResult, CurveError>)
    requires c.fee <= FEE_DENOMINATOR
    ensures r.Ok? ==> r.value.deposit == amount && min <= r.value.withdraw
    ensures r.Ok? ==> r.value.withdraw < (if pair == X then c.y else c.x)
  {
    if amount == 0 || c.x == 0 || c.y == 0 then Err(ZeroBalance)
    else
      var (reserveIn, reserveOut) := if pair == X then (c.x, c.y) else (c.y, c.x);
      var out := SwapOutput(reserveIn, reserveOut, amount, c.fee);
      SwapOutputBelowReserve(reserveIn, reserveOut, amount, c.fee);
      if out < min then Err(SlippageLimitExceeded)
      else Ok(SwapResult(amount, out, amount - AmountAfterFee(amount, c.fee)))
  }

  /** `ConstantProduct::xy_withdraw_amounts_from_l`: each reserve's share of `a` out of `l`, rounded down. */
  function WithdrawAmountsFromL(x: nat, y: nat, l: nat, a: nat, precision: nat): (r: XYAmounts)
    requires 0 < l && a <= l
    ensures r.x <= x && r.y <= y
  {
    ShareAtMostReserve(x, l, a);
    ShareAtMostReserve(y, l, a);
    XYAmounts(a * x / l, a * y / l)
  }

  // ---------------------------------------------------------------------------------------------
  // Properties of the assumed curve

  /** A swap never drains the output reserve: with both reserves non-empty, something stays. */
  lemma SwapOutputBelowReserve(reserveIn: nat, reserveOut: nat, amountIn: nat, fee: nat)
    requires fee <= FEE_DENOMINATOR && reserveIn > 0 && reserveOut > 0
    ensures SwapOutput(reserveIn, reserveOut, amountIn, fee) < reserveOut
  {
    var newIn := reserveIn + AmountAfterFee(amountIn, fee);
    MulPositive(reserveIn, reserveOut);
    assert CeilDiv(reserveIn * reserveOut, newIn) * newIn >= reserveIn * reserveOut;
  }

  /**
   * The constant product never decreases across a swap: the new reserves, with the WHOLE input
   * (fee included) kept by the pool, multiply to at least the old product.
   */
  lemma SwapKeepsProduct(reserveIn: nat, reserveOut: nat, amountIn: nat, fee: nat)
    requires fee <= FEE_DENOMINATOR && reserveIn > 0
    ensures reserveIn * reserveOut
            <= (reserveIn + amountIn) * (reserveOut - SwapOutput(reserveIn, reserveOut, amountIn, fee))
  {
    var newIn := reserveIn + AmountAfterFee(amountIn, fee);
    var out := SwapOutput(reserveIn, reserveOut, amountIn, fee);
    var newOut := CeilDiv(reserveIn * reserveOut, newIn);
    assert reserveOut - out == newOut;
    MulLeftMono(newIn, reserveIn + amountIn, newOut);
  }

  /** With a positive fee and a positive trade the product strictly grows: the fee stays in the pool. */
  lemma SwapWithFeeGrowsProduct(reserveIn: nat, reserveOut: nat, amountIn: nat, fee: nat)
    requires 0 < fee <= FEE_DENOMINATOR && reserveIn > 0 && reserveOut > 0 && amountIn > 0
    ensures reserveIn * reserveOut
            < (reserveIn + amountIn) * (reserveOut - SwapOutput(reserveIn, reserveOut, amountIn, fee))
  {
    var after := AmountAfterFee(amountIn, fee);
    assert after < amountIn by {
      assert amountIn * (FEE_DENOMINATOR - fee) < amountIn * FEE_DENOMINATOR;
    }
    var newIn := reserveIn + after;
    var newOut := CeilDiv(reserveIn * reserveOut, newIn);
    SwapOutputBelowReserve(reserveIn, reserveOut, amountIn, fee);
    assert (reserveIn + amountIn) * newOut == newIn * newOut + (amountIn - after) * newOut;
    MulPositive(amountIn - after, newOut);
  }

  /**
   * The trader gets the floor of the exact amount: one more unit of output would take the
   * product (counting only the input after the fee) below the old one.
   */
  lemma SwapOutputIsMaximal(reserveIn: nat, reserveOut: nat, amountIn: nat, fee: nat)
    requires fee <= FEE_DENOMINATOR && reserveIn > 0
    requires SwapOutput(reserveIn, reserveOut, amountIn, fee) < reserveOut
    ensures var out := SwapOutput(reserveIn, reserveOut, amountIn, fee);
            (reserveIn + AmountAfterFee(amountIn, fee)) * (reserveOut - out - 1) < reserveIn * reserveOut
  {
    var newIn := reserveIn + AmountAfterFee(amountIn, fee);
    var newOut := CeilDiv(reserveIn * reserveOut, newIn);
    assert (newOut - 1) * newIn == newOut * newIn - newIn;
  }

  /** The withdrawn amount is the floor of the proportional share `a / l` of the reserve. */
  lemma WithdrawIsProportionalFloor(x: nat, y: nat, l: nat, a: nat, precision: nat)
    requires 0 < l && a <= l
    ensures var r := WithdrawAmountsFromL(x, y, l, a, precision);
            r.x * l <= a * x < (r.x + 1) * l && r.y * l <= a * y < (r.y + 1) * l
  {
    FloorDiv(a * x, l);
    FloorDiv(a * y, l);
  }

  /** Burning the whole supply pays out both reserves exactly. */
  lemma WithdrawAllEmptiesReserves(x: nat, y: nat, l: nat, precision: nat)
    requires 0 < l
    ensures WithdrawAmountsFromL(x, y, l, l, precision) == XYAmounts(x, y)
  {
    assert l * x / l == x by { MulDivCancel(x, l); }
    assert l * y / l == y by { MulDivCancel(y, l); }
  }

  // ---------------------------------------------------------------------------------------------
  // Arithmetic helpers

  lemma MulLeftMono(a: nat, b: nat, c: nat)
    requires a <= b
    ensures a * c <= b * c
  {
  }

  lemma MulPositive(a: nat, b: nat)
    requires a > 0 && b > 0
    ensures a * b > 0
  {
  }

  lemma FloorDiv(n: nat, d: nat)
    requires d > 0
    ensures (n / d) * d <= n < (n / d + 1) * d
  {
  }

  lemma MulDivCancel(x: nat, d: nat)
    requires d > 0
    ensures d * x / d == x
  {
    FloorDiv(d * x, d);
    var q := d * x / d;
    if q < x {
      MulLeftMono(q + 1, x, d);
    }
  }

  /** If `n <= m * d` then `n / d <= m`. */
  lemma DivBelow(n: nat, d: nat, m: nat)
    requires d > 0 && n <= m * d
    ensures n / d <= m
  {
    FloorDiv(n, d);
    if n / d > m {
      MulLeftMono(m + 1, n / d, d);
    }
  }

  /** If `n <= m * d` then `ceil(n / d) <= m`. */
  lemma CeilDivBelow(n: nat, d: nat, m: nat)
    requires d > 0 && n <= m * d
    ensures CeilDiv(n, d) <= m
  {
    var q := CeilDiv(n, d);
    if q > m {
      MulLeftMono(m + 1, q, d);
    }
  }

  lemma ShareAtMostReserve(v: nat, l: nat, a: nat)
    requires 0 < l && a <= l
    ensures a * v / l <= v
  {
    MulLeftMono(a, l, v);
    DivBelow(a * v, l, v);
  }
}
