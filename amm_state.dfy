/**
 * The balances the AMM's swap and withdraw instructions read and write: the pool config's lock
 * flag and fee, the two vaults owned by the config, the LP mint's supply, the config's own LP token
 * account, and one user's X, Y and LP token accounts. Each token movement the instructions make
 * through the token program is a function on this record.
 */
module AmmState {
  import opened Common

  /** The AMM program's error codes that swap and withdraw can raise. */
  datatype AmmError =
    | PoolLocked
    | InvalidAmount
    | InsufficientBalance
    | LiquidityLessThanMinimum
    | NoLiquidityInPool
    | InvalidPrecision
    | SlippageExceeded
    | FromCurve(cause: CurveErrorCode)

  /** The curve crate's errors, as converted by `AmmError::from`. */
  datatype CurveErrorCode = CurveInvalidFee | CurveZeroBalance | CurveSlippage

  datatype PoolState = PoolState(
    locked: bool,      // config.locked
    fee: nat,          // config.fee, in basis points
    decimalsX: nat,    // mint_x.decimals
    vaultX: nat,       // vault_x.amount
    vaultY: nat,       // vault_y.amount
    lpSupply: nat,     // mint_lp.supply
    configLp: nat,     // lp_token_account.amount (the config's own LP account)
    userX: nat,        // user's X token account
    userY: nat,        // user's Y token account
    userLp: nat)       // user's LP token account

  /**
   * Ledger facts every reachable pool satisfies: every field fits its Rust type, the token
   * accounts of one mint together hold at most `u64::MAX` (a mint's supply is a `u64`), and the LP
   * accounts hold no more than the LP supply.
   */
  predicate Valid(s: PoolState)
  {
    && IsU64(s.fee) && IsU8(s.decimalsX)
    && s.userX + s.vaultX <= U64_MAX
    && s.userY + s.vaultY <= U64_MAX
    && s.userLp + s.configLp <= s.lpSupply <= U64_MAX
  }

  /** The user's balance on the X (`isX`) or Y side. */
  function UserBalance(s: PoolState, isX: bool): nat
  {
    if isX then s.userX else s.userY
  }

  /** The vault balance on the X (`isX`) or Y side. */
  function VaultBalance(s: PoolState, isX: bool): nat
  {
    if isX then s.vaultX else s.vaultY
  }

  /** The config fields no instruction here writes: the lock flag, the fee and mint X's decimals. */
  predicate SameConfig(s: PoolState, t: PoolState)
  {
    s.locked == t.locked && s.fee == t.fee && s.decimalsX == t.decimalsX
  }

  /** A token-program transfer from the user's account to the vault on one side. */
  function DepositToVault(s: PoolState, isX: bool, amount: nat): (t: PoolState)
    requires amount <= UserBalance(s, isX)
    ensures SameConfig(s, t) && t.lpSupply == s.lpSupply && t.configLp == s.configLp && t.userLp == s.userLp
    ensures UserBalance(t, isX) == UserBalance(s, isX) - amount
    ensures VaultBalance(t, isX) == VaultBalance(s, isX) + amount
    ensures UserBalance(t, !isX) == UserBalance(s, !isX) && VaultBalance(t, !isX) == VaultBalance(s, !isX)
  {
    if isX then s.(userX := s.userX - amount, vaultX := s.vaultX + amount)
    else s.(userY := s.userY - amount, vaultY := s.vaultY + amount)
  }

  /** A config-signed token-program transfer from the vault to the user's account on one side. */
  function WithdrawFromVault(s: PoolState, isX: bool, amount: nat): (t: PoolState)
    requires amount <= VaultBalance(s, isX)
    ensures SameConfig(s, t) && t.lpSupply == s.lpSupply && t.configLp == s.configLp && t.userLp == s.userLp
    ensures VaultBalance(t, isX) == VaultBalance(s, isX) - amount
    ensures UserBalance(t, isX) == UserBalance(s, isX) + amount
    ensures UserBalance(t, !isX) == UserBalance(s, !isX) && VaultBalance(t, !isX) == VaultBalance(s, !isX)
  {
    if isX then s.(vaultX := s.vaultX - amount, userX := s.userX + amount)
    else s.(vaultY := s.vaultY - amount, userY := s.userY + amount)
  }

  /** A token-program burn of the user's LP tokens: the account and the mint supply both drop. */
  function BurnLp(s: PoolState, amount: nat): (t: PoolState)
    requires amount <= s.userLp
    requires amount <= s.lpSupply
    ensures t.userLp == s.userLp - amount && t.lpSupply == s.lpSupply - amount
    ensures t.(userLp := s.userLp, lpSupply := s.lpSupply) == s
  {
    s.(userLp := s.userLp - amount, lpSupply := s.lpSupply - amount)
  }
}
