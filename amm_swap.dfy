/**
 * The AMM's `swap` instruction as a transition on the pool's balances: four guards in source
 * order, then the curve quote, then a user-to-vault transfer of the input and a vault-to-user
 * transfer of the output.
 */
module AmmSwap {
  import opened Common
  import opened AmmState
  import CP = ConstantProductCurve

  /** `AmmError::from` on the curve crate's errors. */
  function CurveCode(e: CP.CurveError): CurveErrorCode
  {
    match e
    case InvalidFeeAmount => CurveInvalidFee
    case ZeroBalance => CurveZeroBalance
    case SlippageLimitExceeded => CurveSlippage
  }

  /**
   * The curve's quote for this pool; `configLp` is what the instruction hands over as `l`. A fee
   * above 100% is rejected by `init`; an accepted quote deposits exactly `amount` and pays at
   * least `min`, and never the whole output vault.
   */
  function Quote(s: PoolState, isX: bool, amount: nat, min: nat): (r: Result<CP.SwapResult, CP.CurveError>)
    ensures s.fee > CP.FEE_DENOMINATOR ==> r == Err(CP.InvalidFeeAmount)
    ensures r.Ok? ==> r.value.deposit == amount && min <= r.value.withdraw < VaultBalance(s, !isX)
  {
    match CP.Init(s.vaultX, s.vaultY, s.configLp, s.fee, Some(s.decimalsX))
    case Err(e) => Err(e)
    case Ok(curve) => CP.Swap(curve, if isX then CP.X else CP.Y, amount, min)
  }

  /** The product of the two vault balances, the constant-product invariant. */
  function Product(s: PoolState): nat
  {
    s.vaultX * s.vaultY
  }

  /**
   * `Swap::swap(is_x, amount, min)`. A successful swap keeps the ledger facts, leaves the config
   * and every LP balance alone, conserves each mint between the user and the vault, never lets
   * the constant product fall, and moves exactly `amount` in and at least `min` out.
   */
  function Swap(s: PoolState, isX: bool, amount: nat, min: nat): (r: Result<PoolState, AmmError>)
    requires Valid(s)
    ensures r.Ok? ==> Valid(r.value)
    ensures r.Ok? ==> SameConfig(s, r.value)
    ensures r.Ok? ==> r.value.lpSupply == s.lpSupply && r.value.configLp == s.configLp && r.value.userLp == s.userLp
    ensures r.Ok? ==> r.value.userX + r.value.vaultX == s.userX + s.vaultX
    ensures r.Ok? ==> r.value.userY + r.value.vaultY == s.userY + s.vaultY
    ensures r.Ok? ==> Product(s) <= Product(r.value)
    ensures r.Ok? ==> UserBalance(r.value, isX) + amount == UserBalance(s, isX)
    ensures r.Ok? ==> UserBalance(s, !isX) + min <= UserBalance(r.value, !isX)
    ensures r.Ok? ==> 0 < VaultBalance(r.value, !isX)
  {
    if s.locked then Err(PoolLocked)
    else if amount == 0 then Err(InvalidAmount)
    else if UserBalance(s, isX) < amount then Err(InsufficientBalance)
    else if VaultBalance(s, !isX) < min then Err(LiquidityLessThanMinimum)
    else
      match Quote(s, isX, amount, min)
      case Err(e) => Err(FromCurve(CurveCode(e)))
      case Ok(res) =>
        var t := WithdrawFromVault(DepositToVault(s, isX, res.deposit), !isX, res.withdraw);
        SwapProductStep(s, isX, amount, min);
        Ok(t)
  }

  /** The product step of `Swap`, from the curve's `SwapKeepsProduct`. */
  lemma SwapProductStep(s: PoolState, isX: bool, amount: nat, min: nat)
    requires Valid(s) && !s.locked && 0 < amount <= UserBalance(s, isX)
    requires Quote(s, isX, amount, min).Ok?
    ensures var res := Quote(s, isX, amount, min).value;
            res.withdraw <= VaultBalance(s, !isX) &&
            Product(s) <= Product(WithdrawFromVault(DepositToVault(s, isX, res.deposit), !isX, res.withdraw))
  {
    var res := Quote(s, isX, amount, min).value;
    QuoteIsSwapOutput(s, isX, amount, min);
    var t := WithdrawFromVault(DepositToVault(s, isX, res.deposit), !isX, res.withdraw);
    CP.SwapKeepsProduct(VaultBalance(s, isX), VaultBalance(s, !isX), amount, s.fee);
    ProductAfter(s, t, isX, amount, res.withdraw);
  }

  /** With a positive fee, a successful swap strictly raises the constant product. */
  lemma SwapWithFeeGrowsProduct(s: PoolState, isX: bool, amount: nat, min: nat)
    requires Valid(s) && 0 < s.fee && Swap(s, isX, amount, min).Ok?
    ensures Product(s) < Product(Swap(s, isX, amount, min).value)
  {
    var t := Swap(s, isX, amount, min).value;
    var out := Quote(s, isX, amount, min).value.withdraw;
    SwapMovesBalances(s, isX, amount, min);
    QuoteIsSwapOutput(s, isX, amount, min);
    CP.SwapWithFeeGrowsProduct(VaultBalance(s, isX), VaultBalance(s, !isX), amount, s.fee);
    ProductAfter(s, t, isX, amount, out);
  }

  /** The product after `amount` enters the `isX` vault and `out` leaves the other one. */
  lemma ProductAfter(s: PoolState, t: PoolState, isX: bool, amount: nat, out: nat)
    requires VaultBalance(t, isX) == VaultBalance(s, isX) + amount
    requires VaultBalance(t, !isX) + out == VaultBalance(s, !isX)
    ensures Product(s) == VaultBalance(s, isX) * VaultBalance(s, !isX)
    ensures Product(t) == (VaultBalance(s, isX) + amount) * (VaultBalance(s, !isX) - out)
  {
    if !isX {
      assert Product(t) == t.vaultY * t.vaultX;
      assert Product(s) == s.vaultY * s.vaultX;
    }
  }

  /** A successful quote on a funded pool is the curve's output for the input side's reserves. */
  lemma QuoteIsSwapOutput(s: PoolState, isX: bool, amount: nat, min: nat)
    requires Quote(s, isX, amount, min).Ok?
    ensures s.fee <= CP.FEE_DENOMINATOR && 0 < s.vaultX && 0 < s.vaultY && 0 < amount
    ensures Quote(s, isX, amount, min).value.withdraw
            == CP.SwapOutput(VaultBalance(s, isX), VaultBalance(s, !isX), amount, s.fee)
  {
  }

  /** The guards run in source order, and the first one that fails picks the error. */
  lemma SwapGuardOrder(s: PoolState, isX: bool, amount: nat, min: nat)
    requires Valid(s)
    ensures s.locked ==> Swap(s, isX, amount, min) == Err(PoolLocked)
    ensures !s.locked && amount == 0 ==> Swap(s, isX, amount, min) == Err(InvalidAmount)
    ensures !s.locked && 0 < amount && UserBalance(s, isX) < amount ==>
              Swap(s, isX, amount, min) == Err(InsufficientBalance)
    ensures !s.locked && 0 < amount <= UserBalance(s, isX) && VaultBalance(s, !isX) < min ==>
              Swap(s, isX, amount, min) == Err(LiquidityLessThanMinimum)
  {
  }

  /**
   * A successful swap is exactly two transfers: the user pays `amount` into the input vault, and
   * the output vault pays the same quantity `out` to the user that it loses, with `min <= out`.
   */
  lemma SwapMovesBalances(s: PoolState, isX: bool, amount: nat, min: nat)
    requires Valid(s) && Swap(s, isX, amount, min).Ok?
    ensures var t := Swap(s, isX, amount, min).value;
            var out := Quote(s, isX, amount, min).value.withdraw;
            && VaultBalance(t, isX) == VaultBalance(s, isX) + amount
            && UserBalance(t, isX) == UserBalance(s, isX) - amount
            && VaultBalance(t, !isX) == VaultBalance(s, !isX) - out
            && UserBalance(t, !isX) == UserBalance(s, !isX) + out
            && min <= out
  {
  }

  /**
   * A swap that passes every guard but is rejected by the curve reports the curve's error;
   * with both vaults non-empty and a fee of at most 100%, the only such rejection is slippage.
   */
  lemma SwapCurveRejection(s: PoolState, isX: bool, amount: nat, min: nat)
    requires Valid(s) && !s.locked && 0 < amount <= UserBalance(s, isX) && min <= VaultBalance(s, !isX)
    requires s.fee <= CP.FEE_DENOMINATOR && 0 < s.vaultX && 0 < s.vaultY
    ensures Swap(s, isX, amount, min).Err? ==> Swap(s, isX, amount, min) == Err(FromCurve(CurveSlippage))
  {
  }

  /**
   * The test's X-to-Y swap: a pool of 100,000 X and 100,000 Y (six decimals) with a 30 bps fee,
   * a trade of 10,000 X with no slippage floor, strictly raises the user's Y balance, and leaves
   * the pool `AfterFirstSwap` describes.
   */
  lemma SwapXForYScenario()
    ensures var s := PoolState(false, 30, 6, 100_000_000_000, 100_000_000_000, 100_000_000_000, 0,
                               900_000_000_000, 900_000_000_000, 100_000_000_000);
            var r := Swap(s, true, 10_000_000_000, 0);
            r.Ok? && r.value.userY > s.userY && r.value == AfterFirstSwap()
  {
    var after := CP.AmountAfterFee(10_000_000_000, 30);
    assert after == 9_970_000_000;
    var newOut := CP.CeilDiv(100_000_000_000 * 100_000_000_000, 100_000_000_000 + after);
    assert newOut == 90_933_891_062;
    assert CP.SwapOutput(100_000_000_000, 100_000_000_000, 10_000_000_000, 30) == 9_066_108_938;
  }

  /** The pool of the test after its X-to-Y swap. */
  function AfterFirstSwap(): PoolState
  {
    PoolState(false, 30, 6, 110_000_000_000, 90_933_891_062, 100_000_000_000, 0,
              890_000_000_000, 909_066_108_938, 100_000_000_000)
  }

  /** The test's Y-to-X swap that follows: 5,000 Y with no floor strictly raises the user's X balance. */
  lemma SwapYForXScenario()
    ensures var s := AfterFirstSwap();
            var r := Swap(s, false, 5_000_000_000, 0);
            r.Ok? && r.value.userX > s.userX
  {
    var after := CP.AmountAfterFee(5_000_000_000, 30);
    assert after == 4_985_000_000;
    var newOut := CP.CeilDiv(90_933_891_062 * 110_000_000_000, 90_933_891_062 + after);
    assert newOut == 104_283_190_789;
    assert CP.SwapOutput(90_933_891_062, 110_000_000_000, 5_000_000_000, 30) == 5_716_809_211;
  }
}
