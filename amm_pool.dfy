/**
 * The accounts of the AMM's swap and withdraw instructions as one mutable object. Each method
 * runs the instruction's guards in order, returns the first error without touching a field, and
 * only then moves balances, in the source's order: for a swap the input transfer and then the
 * output transfer; for a withdraw the LP burn and then the X and Y transfers. Every method is
 * proved to land on the state its transition function in `AmmSwap` / `AmmWithdraw` describes.
 */
module AmmPool {
  import opened Common
  import opened AmmState
  import AmmSwap
  import AmmWithdraw
  import CP = ConstantProductCurve

  class Pool {
    var locked: bool
    var fee: nat
    var decimalsX: nat
    var vaultX: nat
    var vaultY: nat
    var lpSupply: nat
    var configLp: nat
    var userX: nat
    var userY: nat
    var userLp: nat

    /** The balances this object holds, as a value. */
    function State(): PoolState
      reads this
    {
      PoolState(locked, fee, decimalsX, vaultX, vaultY, lpSupply, configLp, userX, userY, userLp)
    }

    constructor (s: PoolState)
      ensures State() == s
    {
      locked, fee, decimalsX := s.locked, s.fee, s.decimalsX;
      vaultX, vaultY, lpSupply, configLp := s.vaultX, s.vaultY, s.lpSupply, s.configLp;
      userX, userY, userLp := s.userX, s.userY, s.userLp;
    }

    /** `Swap::swap`: guards, curve quote, then `deposit_tokens` and `withdraw_tokens`. */
    method Swap(isX: bool, amount: nat, min: nat) returns (r: Outcome<AmmError>)
      requires Valid(State())
      modifies this
      ensures Valid(State())
      ensures r == OutcomeOf(AmmSwap.Swap(old(State()), isX, amount, min))
      ensures State() == StateAfter(AmmSwap.Swap(old(State()), isX, amount, min), old(State()))
      ensures r.Fail? ==> State() == old(State())
    {
      if locked {
        return Fail(PoolLocked);
      }
      if amount == 0 {
        return Fail(InvalidAmount);
      }
      var userTokenBalance := if isX then userX else userY;
      if userTokenBalance < amount {
        return Fail(InsufficientBalance);
      }
      var vaultMeetsMin := if isX then vaultY >= min else vaultX >= min;
      if !vaultMeetsMin {
        return Fail(LiquidityLessThanMinimum);
      }
      var curve := CP.Init(vaultX, vaultY, configLp, fee, Some(decimalsX));
      if curve.Err? {
        return Fail(FromCurve(AmmSwap.CurveCode(curve.error)));
      }
      var pair := if isX then CP.X else CP.Y;
      var swapResult := CP.Swap(curve.value, pair, amount, min);
      if swapResult.Err? {
        return Fail(FromCurve(AmmSwap.CurveCode(swapResult.error)));
      }
      DepositTokens(isX, swapResult.value.deposit);
      WithdrawTokens(!isX, swapResult.value.withdraw);
      r := Pass;
    }

    /** `deposit_tokens`: the user pays `amount` into the vault on the `isX` side. */
    method DepositTokens(isX: bool, amount: nat)
      requires amount <= UserBalance(State(), isX)
      modifies this
      ensures State() == DepositToVault(old(State()), isX, amount)
    {
      if isX {
        userX := userX - amount;
        vaultX := vaultX + amount;
      } else {
        userY := userY - amount;
        vaultY := vaultY + amount;
      }
    }

    /** `withdraw_tokens` (in both instructions): the vault on the `isX` side pays `amount` to the user. */
    method WithdrawTokens(isX: bool, amount: nat)
      requires amount <= VaultBalance(State(), isX)
      modifies this
      ensures State() == WithdrawFromVault(old(State()), isX, amount)
    {
      if isX {
        vaultX := vaultX - amount;
        userX := userX + amount;
      } else {
        vaultY := vaultY - amount;
        userY := userY + amount;
      }
    }

    /** `burn_lp_tokens`: `amount` leaves the user's LP account and the LP supply. */
    method BurnLpTokens(amount: nat)
      requires amount <= userLp && amount <= lpSupply
      modifies this
      ensures State() == BurnLp(old(State()), amount)
    {
      userLp := userLp - amount;
      lpSupply := lpSupply - amount;
    }

    /** `Withdraw::withdraw`: guards, precision, curve amounts, slippage, then burn and two transfers. */
    method Withdraw(amount: nat, minX: nat, minY: nat) returns (r: Outcome<AmmError>)
      requires Valid(State())
      modifies this
      ensures Valid(State())
      ensures r == OutcomeOf(AmmWithdraw.Withdraw(old(State()), amount, minX, minY))
      ensures State() == StateAfter(AmmWithdraw.Withdraw(old(State()), amount, minX, minY), old(State()))
      ensures r.Fail? ==> State() == old(State())
    {
      if locked {
        return Fail(PoolLocked);
      }
      if amount == 0 {
        return Fail(InvalidAmount);
      }
      if lpSupply == 0 {
        return Fail(NoLiquidityInPool);
      }
      if userLp < amount {
        return Fail(InsufficientBalance);
      }
      if amount > lpSupply {
        return Fail(InvalidAmount);
      }
      var decPrecision := AmmWithdraw.CheckedPow10U32(decimalsX);
      if decPrecision.None? {
        return Fail(InvalidPrecision);
      }
      var withdrawAmounts := CP.WithdrawAmountsFromL(vaultX, vaultY, lpSupply, amount, decPrecision.value);
      var xAmountOut := withdrawAmounts.x;
      var yAmountOut := withdrawAmounts.y;
      if xAmountOut < minX {
        return Fail(SlippageExceeded);
      }
      if yAmountOut < minY {
        return Fail(SlippageExceeded);
      }
      BurnLpTokens(amount);
      WithdrawTokens(true, xAmountOut);
      WithdrawTokens(false, yAmountOut);
      r := Pass;
    }
  }
}
