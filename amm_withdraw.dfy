/**
 * The AMM's `withdraw` instruction as a transition on the pool's balances: five guards in source
 * order, the decimal-precision check, the curve's share computation and two slippage checks;
 * then the burn of the user's LP tokens and two vault-to-user transfers.
 */
module AmmWithdraw {
  import opened Common
  import opened AmmState
  import CP = ConstantProductCurve

  /** Rust's `10u32.checked_pow(exp)`: the power, or `None` when it does not fit a `u32`. */
  function CheckedPow10U32(exp: nat): (r: Option<nat>)
    ensures r.Some? ==> r.value == Pow(10, exp) && r.value <= U32_MAX
    ensures r.None? ==> Pow(10, exp) > U32_MAX
  {
    if Pow(10, exp) <= U32_MAX then Some(Pow(10, exp)) else None
  }

  /**
   * `Withdraw::withdraw(amount, min_x, min_y)`. A successful withdraw keeps the ledger facts,
   * leaves the config and the config's LP account alone, burns exactly `amount` from both the
   * user's LP account and the supply, conserves each mint between the user and the vault, meets
   * both slippage floors, and pays no more than the proportional share `amount / supply`.
   */
  function Withdraw(s: PoolState, amount: nat, minX: nat, minY: nat): (r: Result<PoolState, AmmError>)
    requires Valid(s)
    ensures r.Ok? ==> Valid(r.value)
    ensures r.Ok? ==> SameConfig(s, r.value) && r.value.configLp == s.configLp
    ensures r.Ok? ==> r.value.lpSupply == s.lpSupply - amount && r.value.userLp == s.userLp - amount
    ensures r.Ok? ==> r.value.userX + r.value.vaultX == s.userX + s.vaultX
    ensures r.Ok? ==> r.value.userY + r.value.vaultY == s.userY + s.vaultY
    ensures r.Ok? ==> s.userX + minX <= r.value.userX && s.userY + minY <= r.value.userY
    ensures r.Ok? ==> (r.value.userX - s.userX) * s.lpSupply <= amount * s.vaultX
    ensures r.Ok? ==> (r.value.userY - s.userY) * s.lpSupply <= amount * s.vaultY
  {
    if s.locked then Err(PoolLocked)
    else if amount == 0 then Err(InvalidAmount)
    else if s.lpSupply == 0 then Err(NoLiquidityInPool)
    else if s.userLp < amount then Err(InsufficientBalance)
    else if amount > s.lpSupply then Err(InvalidAmount)
    else
      match CheckedPow10U32(s.decimalsX)
      case None => Err(InvalidPrecision)
      case Some(precision) =>
        var out := CP.WithdrawAmountsFromL(s.vaultX, s.vaultY, s.lpSupply, amount, precision);
        CP.WithdrawIsProportionalFloor(s.vaultX, s.vaultY, s.lpSupply, amount, precision);
        if out.x < minX then Err(SlippageExceeded)
        else if out.y < minY then Err(SlippageExceeded)
        else Ok(WithdrawFromVault(WithdrawFromVault(BurnLp(s, amount), true, out.x), false, out.y))
  }

  /** The amounts the curve pays out for a withdraw of `amount`, as the instruction asks for them. */
  function Payout(s: PoolState, amount: nat): CP.XYAmounts
    requires 0 < s.lpSupply && amount <= s.lpSupply && CheckedPow10U32(s.decimalsX).Some?
  {
    CP.WithdrawAmountsFromL(s.vaultX, s.vaultY, s.lpSupply, amount, CheckedPow10U32(s.decimalsX).value)
  }

  /** The guards run in source order, and the first one that fails picks the error. */
  lemma WithdrawGuardOrder(s: PoolState, amount: nat, minX: nat, minY: nat)
    requires Valid(s)
    ensures s.locked ==> Withdraw(s, amount, minX, minY) == Err(PoolLocked)
    ensures !s.locked && amount == 0 ==> Withdraw(s, amount, minX, minY) == Err(InvalidAmount)
    ensures !s.locked && 0 < amount && s.lpSupply == 0 ==> Withdraw(s, amount, minX, minY) == Err(NoLiquidityInPool)
    ensures !s.locked && 0 < amount && 0 < s.lpSupply && s.userLp < amount ==>
              Withdraw(s, amount, minX, minY) == Err(InsufficientBalance)
    ensures !s.locked && 0 < amount <= s.userLp && 0 < s.lpSupply && CheckedPow10U32(s.decimalsX).None? ==>
              Withdraw(s, amount, minX, minY) == Err(InvalidPrecision)
    ensures !s.locked && 0 < amount <= s.userLp && 0 < s.lpSupply && CheckedPow10U32(s.decimalsX).Some? ==>
              (Withdraw(s, amount, minX, minY) == Err(SlippageExceeded) <==>
                 Payout(s, amount).x < minX || Payout(s, amount).y < minY)
  {
  }

  /**
   * A withdraw of more LP than the supply is rejected, and because a user's LP account never
   * holds more than the supply, the rejection is always `InsufficientBalance` from the balance
   * guard: the later `amount <= supply` guard is never the one that fires.
   */
  lemma WithdrawAboveSupplyRejected(s: PoolState, amount: nat, minX: nat, minY: nat)
    requires Valid(s) && !s.locked && 0 < s.lpSupply < amount
    ensures Withdraw(s, amount, minX, minY) == Err(InsufficientBalance)
  {
  }

  /** A successful withdraw burns `amount`, then pays the curve's amounts from each vault to the user. */
  lemma WithdrawMovesBalances(s: PoolState, amount: nat, minX: nat, minY: nat)
    requires Valid(s) && Withdraw(s, amount, minX, minY).Ok?
    ensures var t := Withdraw(s, amount, minX, minY).value;
            var out := Payout(s, amount);
            && t.vaultX == s.vaultX - out.x && t.userX == s.userX + out.x
            && t.vaultY == s.vaultY - out.y && t.userY == s.userY + out.y
            && t.lpSupply == s.lpSupply - amount && t.userLp == s.userLp - amount
  {
  }

  /** `10u32.checked_pow(decimals)` overflows exactly when the mint has ten or more decimals. */
  lemma {:induction false} PrecisionOverflowsIffTenDecimals(decimals: nat)
    ensures CheckedPow10U32(decimals).None? <==> decimals >= 10
    ensures CheckedPow10U32(decimals).Some? ==> CheckedPow10U32(decimals).value == Pow(10, decimals)
  {
    Pow10Values();
    if decimals < 10 {
      Pow10Monotone(decimals, 9);
    } else {
      Pow10Monotone(10, decimals);
    }
  }

  lemma Pow10Values()
    ensures Pow(10, 9) == 1_000_000_000 && Pow(10, 10) == 10_000_000_000
  {
    assert Pow(10, 0) == 1;
    assert Pow(10, 1) == 10;
    assert Pow(10, 2) == 100;
    assert Pow(10, 3) == 1_000;
    assert Pow(10, 4) == 10_000;
    assert Pow(10, 5) == 100_000;
    assert Pow(10, 6) == 1_000_000;
    assert Pow(10, 7) == 10_000_000;
    assert Pow(10, 8) == 100_000_000;
  }

  lemma {:induction false} Pow10Monotone(a: nat, b: nat)
    requires a <= b
    ensures Pow(10, a) <= Pow(10, b)
  {
    if a < b {
      Pow10Monotone(a, b - 1);
    }
  }

  /** The test's withdrawal: a 6-decimal mint passes the precision check with precision 10^6. */
  lemma SixDecimalPrecision()
    ensures CheckedPow10U32(6) == Some(1_000_000)
  {
    Pow10Values();
  }
}
