# Solana program cores: AMM, quadratic-funding DAO, escrow `take`, dice bet encoder

This project is a Dafny model of four small pieces of Solana on-chain logic and one test-side
byte encoder, with proofs of what they promise.

- **Constant-product AMM** (`anchor-amm-starter-q4-25`): the `swap` and `withdraw` instructions.
  - The pool is a record of balances: the lock flag, the fee, the two vaults, the LP supply, the
    config's LP account, and one user's X, Y and LP accounts.
  - Each instruction is a transition function (`AmmSwap.Swap`, `AmmWithdraw.Withdraw`). Each runs
    the source's `require!` guards in order, then the curve, then the token moves.
  - The class `AmmPool.Pool` holds the same balances as mutable fields. Its methods follow the
    source statement by statement and are proved to land on the transition's result.
  - The pricing crate `constant_product_curve` is not part of this model. `ConstantProductCurve`
    writes out an assumed contract for it and proves the properties the AMM relies on.
- **Quadratic-funding DAO** (`quadratic_funding_dao`): `init_proposal` and `cast_vote`.
  - The accounts are modelled as a counter, a map of proposals keyed by the counter's value at
    creation, and a map of votes keyed by (proposal, voter).
  - Transition functions live in `DaoInstructions`. The class `DaoProgram.QuadraticFundingDao`
    updates those fields in place.
- **Escrow `take`** (`anchor-escrow-starter-q4-25`).
  - The accounts form a ledger: a sequence of accounts, each with lamports and either nothing, a
    token balance, or an escrow record.
  - `TokenLedger` models the token program's `transfer_checked` and `close_account` and proves
    that both conserve every mint's total and the lamport total.
  - `EscrowTake` models the account constraints, `init_if_needed` on `taker_ata_a`, `deposit`,
    `withdraw_and_close_vault`, and the closing of the escrow record on exit.
  - The class `EscrowProgram.Take` runs the same steps on a mutable ledger.
- **Dice bet encoder** (the dice game's test file): `u128ToLeBytes` and `betToSlice`.
  - These are methods that fill a zeroed byte array with `writeBigUInt64LE`, `copy` and index
    stores, following Node's `Buffer` semantics.
  - Each is proved to produce the little-endian layout that `LittleEndian` and `EncodeBet`
    describe, and to throw exactly when a value does not fit.

Two details of the code worth noting:

- `withdraw` rejects a locked pool with `PoolLocked` (`withdraw.rs:75`), so a lock also blocks
  exits, not only swaps.
- `swap` hands the config's LP token balance, not the LP supply, to the curve as `l`
  (`swap.rs:84`). The assumed curve formula does not use `l`.

## Model

| member | source | states |
|---|---|---|
| AmmSwap.Swap | anchor-amm-starter-q4-25/programs/anchor-amm-q4-25/src/instructions/swap.rs:63-101 | A successful swap keeps the pool's u64 facts. It leaves the config, the LP supply and both LP accounts alone. It conserves user+vault per mint and never lowers the vault product. It debits exactly `amount` from the user's input side and credits at least `min` on the output side. |
| AmmSwap.SwapGuardOrder | anchor-amm-starter-q4-25/programs/anchor-amm-q4-25/src/instructions/swap.rs:64-79 | The first failing guard picks the error: locked, then zero amount, then input balance below `amount`, then output vault below `min`. |
| AmmSwap.SwapMovesBalances | anchor-amm-starter-q4-25/programs/anchor-amm-q4-25/src/instructions/swap.rs:97-98 | A successful swap is two transfers. The input vault gains `amount` and the user loses it. The output vault loses the quoted `out` and the user gains the same `out`, with `min <= out`. |
| AmmSwap.SwapCurveRejection | anchor-amm-starter-q4-25/programs/anchor-amm-q4-25/src/instructions/swap.rs:81-95 | Once the guards pass, with both vaults funded and a fee of at most 100%, the only curve rejection is slippage, reported through `AmmError::from`. |
| AmmSwap.SwapWithFeeGrowsProduct | anchor-amm-starter-q4-25/programs/anchor-amm-q4-25/src/instructions/swap.rs:81-98 | With a positive fee, a successful swap strictly raises the vaults' product. |
| AmmSwap.SwapXForYScenario | anchor-amm-starter-q4-25/tests/anchor-amm-q4-25.ts:158-186 | The test's 10,000 X swap into a 100,000/100,000 pool at 30 bps succeeds and strictly raises the user's Y balance. The resulting pool is stated exactly. |
| AmmSwap.SwapYForXScenario | anchor-amm-starter-q4-25/tests/anchor-amm-q4-25.ts:189-217 | The test's 5,000 Y swap on that pool succeeds and strictly raises the user's X balance. |
| AmmSwap.Quote | anchor-amm-starter-q4-25/programs/anchor-amm-q4-25/src/instructions/swap.rs:81-95 | A fee above 100% is rejected by the curve's `init` with `InvalidFeeAmount`. An accepted quote deposits exactly `amount`, pays at least `min`, and pays less than the whole output vault. |
| AmmPool.Pool.Swap | anchor-amm-starter-q4-25/programs/anchor-amm-q4-25/src/instructions/swap.rs:63-101 | The method returns the transition's outcome and leaves exactly the transition's state. A failure changes no field. |
| AmmPool.Pool.DepositTokens | anchor-amm-starter-q4-25/programs/anchor-amm-q4-25/src/instructions/swap.rs:103-123 | `amount` moves from the user's account to the vault on the chosen side. Nothing else changes. |
| AmmPool.Pool.WithdrawTokens | anchor-amm-starter-q4-25/programs/anchor-amm-q4-25/src/instructions/swap.rs:125-152 | `amount` moves from the vault to the user's account on the chosen side. Nothing else changes. The same move is `withdraw.rs:107-140`. |
| AmmPool.Pool.BurnLpTokens | anchor-amm-starter-q4-25/programs/anchor-amm-q4-25/src/instructions/withdraw.rs:142-156 | `amount` leaves the user's LP account and the LP supply. Nothing else changes. |
| AmmPool.Pool.Withdraw | anchor-amm-starter-q4-25/programs/anchor-amm-q4-25/src/instructions/withdraw.rs:69-105 | The method returns the transition's outcome and leaves exactly the transition's state. A failure changes no field. |
| AmmState.DepositToVault | anchor-amm-starter-q4-25/programs/anchor-amm-q4-25/src/instructions/swap.rs:103-123 | `amount` leaves the user's account on the chosen side and enters that vault. The other side, the LP balances and the config are unchanged. |
| AmmState.WithdrawFromVault | anchor-amm-starter-q4-25/programs/anchor-amm-q4-25/src/instructions/swap.rs:125-152 | `amount` leaves the vault on the chosen side and enters the user's account. The other side, the LP balances and the config are unchanged. The same move is `withdraw.rs:107-140`. |
| AmmState.BurnLp | anchor-amm-starter-q4-25/programs/anchor-amm-q4-25/src/instructions/withdraw.rs:142-156 | `amount` leaves both the user's LP account and the LP supply. Every other field is unchanged. |
| AmmWithdraw.Withdraw | anchor-amm-starter-q4-25/programs/anchor-amm-q4-25/src/instructions/withdraw.rs:69-105 | A successful withdraw burns exactly `amount` from the user's LP account and the supply. It leaves the config and the config's LP account alone and conserves user+vault per mint. It pays at least `min_x` and `min_y`, and never more than the proportional share `amount / supply` of each vault. |
| AmmWithdraw.WithdrawGuardOrder | anchor-amm-starter-q4-25/programs/anchor-amm-q4-25/src/instructions/withdraw.rs:75-97 | The first failing check picks the error: locked, zero amount, empty supply, LP balance below `amount`, precision overflow. Past those, `SlippageExceeded` is returned exactly when either payout is below its floor. |
| AmmWithdraw.WithdrawAboveSupplyRejected | anchor-amm-starter-q4-25/programs/anchor-amm-q4-25/src/instructions/withdraw.rs:78-79 | An amount above the supply is rejected with `InsufficientBalance`. The later `amount <= supply` guard never fires, because an LP account never holds more than the supply. |
| AmmWithdraw.WithdrawMovesBalances | anchor-amm-starter-q4-25/programs/anchor-amm-q4-25/src/instructions/withdraw.rs:99-102 | A successful withdraw burns `amount`. It then moves the curve's X payout and Y payout from each vault to the user. |
| AmmWithdraw.PrecisionOverflowsIffTenDecimals | anchor-amm-starter-q4-25/programs/anchor-amm-q4-25/src/instructions/withdraw.rs:81-83 | `10u32.checked_pow(decimals)` fails exactly when `decimals >= 10`. Otherwise it is `10^decimals`. |
| AmmWithdraw.SixDecimalPrecision | anchor-amm-starter-q4-25/programs/anchor-amm-q4-25/src/instructions/withdraw.rs:81-83 | A 6-decimal mint, as in the test, gets precision 1,000,000. |
| AmmWithdraw.CheckedPow10U32 | anchor-amm-starter-q4-25/programs/anchor-amm-q4-25/src/instructions/withdraw.rs:81-83 | `10u32.checked_pow(exp)` returns `10^exp` when it fits a `u32`. It returns nothing when `10^exp` exceeds the `u32` maximum. |
| ConstantProductCurve.Swap | anchor-amm-starter-q4-25/programs/anchor-amm-q4-25/src/instructions/swap.rs:95 | Assumed curve: a successful quote deposits exactly `amount` and withdraws at least `min`, and always less than the whole output reserve. |
| ConstantProductCurve.SwapKeepsProduct | anchor-amm-starter-q4-25/programs/anchor-amm-q4-25/src/instructions/swap.rs:95 | Assumed curve: the reserves' product never falls across a swap. |
| ConstantProductCurve.SwapWithFeeGrowsProduct | anchor-amm-starter-q4-25/programs/anchor-amm-q4-25/src/instructions/swap.rs:95 | Assumed curve: with a positive fee and non-empty reserves, the product strictly rises. |
| ConstantProductCurve.SwapOutputIsMaximal | anchor-amm-starter-q4-25/programs/anchor-amm-q4-25/src/instructions/swap.rs:95 | Assumed curve: rounding favours the pool by less than one unit. One more unit of output would drop the product below the old one. |
| ConstantProductCurve.WithdrawIsProportionalFloor | anchor-amm-starter-q4-25/programs/anchor-amm-q4-25/src/instructions/withdraw.rs:84-91 | Assumed curve: each payout is the floor of `amount * reserve / supply`. |
| ConstantProductCurve.WithdrawAllEmptiesReserves | anchor-amm-starter-q4-25/programs/anchor-amm-q4-25/src/instructions/withdraw.rs:84-91 | Assumed curve: burning the whole supply pays out both reserves exactly. |
| ConstantProductCurve.Init | anchor-amm-starter-q4-25/programs/anchor-amm-q4-25/src/instructions/swap.rs:81-88 | Assumed curve: `init` succeeds exactly when the fee is at most 100%. It then keeps both reserves and the fee as given. |
| ConstantProductCurve.WithdrawAmountsFromL | anchor-amm-starter-q4-25/programs/anchor-amm-q4-25/src/instructions/withdraw.rs:84-91 | Assumed curve: for a share `a` of at most `l`, neither payout exceeds its reserve. |
| DaoInstructions.InitProposal | quadratic_funding_dao/programs/quadratic_funding_dao/src/instructions/init_proposal.rs:12-43 | Succeeds exactly when the creator is the DAO authority, the counter can grow and the metadata fits 500 bytes. It stores `Proposal(creator, metadata, 0, 0)` at the old count, where no proposal existed. It raises the count by exactly one and leaves the authority, the votes and every earlier proposal unchanged. A creator other than the authority gets `NotDaoAuthority`, as the test at `tests/quadratic_funding_dao.ts:102-135` expects. |
| DaoInstructions.InitProposalGuardOrder | quadratic_funding_dao/programs/quadratic_funding_dao/src/instructions/init_proposal.rs:10-32 | The first failing check picks the error: `NotDaoAuthority` for a creator other than the authority, then `ArithmeticOverflow` when the counter is at the u64 maximum, then `AccountDidNotSerialize` for metadata over 500 bytes. `AccountAlreadyInUse` is never returned on a valid DAO. |
| DaoInstructions.CastVote | quadratic_funding_dao/programs/quadratic_funding_dao/src/instructions/cast_vote.rs:16-53 | Succeeds exactly when the proposal exists, this voter has no vote on it yet and the vote type is 0 or 1. It records `Vote(voter, type, isqrt(balance))` at (proposal, voter). It adds the credits, saturating at u64::MAX, to `no_votes` for type 0 or `yes_votes` for type 1; the other tally, the other proposals and the DAO are unchanged. |
| DaoInstructions.CastVoteGuardOrder | quadratic_funding_dao/programs/quadratic_funding_dao/src/instructions/cast_vote.rs:11-34 | A missing proposal account fails first, then an existing vote account, then a vote type above 1 (`InvalidVoteType`). |
| DaoInstructions.SecondVoteFails | quadratic_funding_dao/programs/quadratic_funding_dao/src/instructions/cast_vote.rs:16-22 | After a successful vote, every further vote by the same voter on the same proposal fails with `AccountAlreadyInUse`. |
| DaoInstructions.YesVoteScenario | quadratic_funding_dao/tests/quadratic_funding_dao.ts:179-201 | The test's flow: the first proposal gets index 0 and the count becomes 1. A yes vote with 100 tokens of a 6-decimal mint then gives 10,000 credits, 10,000 yes votes and 0 no votes. |
| DaoProgram.QuadraticFundingDao.InitProposal | quadratic_funding_dao/programs/quadratic_funding_dao/src/instructions/init_proposal.rs:28-43 | The method returns the transition's outcome and leaves exactly the transition's accounts. A failure changes nothing. |
| DaoProgram.QuadraticFundingDao.CastVote | quadratic_funding_dao/programs/quadratic_funding_dao/src/instructions/cast_vote.rs:33-53 | The method returns the transition's outcome and leaves exactly the transition's accounts. A failure changes nothing. |
| IntegerSqrt.ISqrt | quadratic_funding_dao/programs/quadratic_funding_dao/src/instructions/cast_vote.rs:38 | The voting credits are the largest `r` with `r * r <= balance`. |
| IntegerSqrt.ISqrtUnique | quadratic_funding_dao/programs/quadratic_funding_dao/src/instructions/cast_vote.rs:38 | Any `r` with `r * r <= n < (r + 1) * (r + 1)` is the root, so the credits are uniquely determined. |
| IntegerSqrt.HundredTokensGiveTenThousandCredits | quadratic_funding_dao/tests/quadratic_funding_dao.ts:197 | A balance of 100,000,000 base units gives 10,000 credits. |
| Common.SaturatingAdd | quadratic_funding_dao/programs/quadratic_funding_dao/src/instructions/cast_vote.rs:48-49 | A tally stays a u64. It is at least each operand and at most their sum, and it falls short of the sum only when it is clamped at u64::MAX. |
| TokenLedger.TransferChecked | anchor-escrow-starter-q4-25/programs/anchor-escrow-q4-25/src/instructions/take.rs:93-102 | A successful `transfer_checked` requires two token accounts of the named mint, the right owner and enough balance. Only those two accounts change. Between distinct accounts it moves exactly `amount`. |
| TokenLedger.TransferCheckedConserves | anchor-escrow-starter-q4-25/programs/anchor-escrow-q4-25/src/instructions/take.rs:109-129 | A transfer leaves every mint's total and the lamport total unchanged. |
| TokenLedger.TransferCheckedKeepsOtherMints | anchor-escrow-starter-q4-25/programs/anchor-escrow-q4-25/src/instructions/take.rs:90-145 | A transfer of one mint changes no account's balance of any other mint. |
| TokenLedger.CloseAccount | anchor-escrow-starter-q4-25/programs/anchor-escrow-q4-25/src/instructions/take.rs:132-144 | Closing succeeds only for an empty token account of the right owner into another account. Its lamports go to the destination and its data is cleared; nothing else changes. |
| TokenLedger.CloseProgramAccount | anchor-escrow-starter-q4-25/programs/anchor-escrow-q4-25/src/instructions/take.rs:69-76 | `close = maker` moves the record's lamports to the maker and clears it. It fails exactly on lamport overflow. |
| TokenLedger.DrainConserves | anchor-escrow-starter-q4-25/programs/anchor-escrow-q4-25/src/instructions/take.rs:71 | Closing an account that holds no tokens destroys no token and no lamport. |
| EscrowTake.CheckTokenAccount | anchor-escrow-starter-q4-25/programs/anchor-escrow-q4-25/src/instructions/take.rs:29-35 | An associated-token constraint passes exactly for a token account with the given mint and owner. |
| EscrowTake.CheckAccounts | anchor-escrow-starter-q4-25/programs/anchor-escrow-q4-25/src/instructions/take.rs:15-84 | Passing constraints imply an escrow record naming this maker, mint A and mint B. They also imply the taker's and maker's mint-B accounts, the vault and an existing `taker_ata_a` have the right mint and owner, and that the maker holds no program data. |
| EscrowTake.CreateTakerAtaA | anchor-escrow-starter-q4-25/programs/anchor-escrow-q4-25/src/instructions/take.rs:20-27 | An existing `taker_ata_a` is left as is. A missing one becomes an empty mint-A account of the taker, paid by `rent` of the taker's lamports. It fails exactly when it is missing and the taker cannot pay. |
| EscrowTake.CreateTakerAtaAConserves | anchor-escrow-starter-q4-25/programs/anchor-escrow-q4-25/src/instructions/take.rs:20-27 | Creating `taker_ata_a` creates no token and no lamport. |
| EscrowTake.Deposit | anchor-escrow-starter-q4-25/programs/anchor-escrow-q4-25/src/instructions/take.rs:90-105 | Only the two mint-B accounts change. Between distinct accounts the taker's loses exactly `receive` and the maker's gains it. |
| EscrowTake.DepositKeepsOtherMints | anchor-escrow-starter-q4-25/programs/anchor-escrow-q4-25/src/instructions/take.rs:93-102 | The deposit changes no balance of any mint other than B. |
| EscrowTake.WithdrawAndCloseVault | anchor-escrow-starter-q4-25/programs/anchor-escrow-q4-25/src/instructions/take.rs:107-145 | The taker's mint-A account gains the vault's whole balance. The vault ends empty and closed, and the maker gains its lamports. Nothing outside vault, `taker_ata_a` and maker changes. |
| EscrowTake.WithdrawKeepsOtherMints | anchor-escrow-starter-q4-25/programs/anchor-escrow-q4-25/src/instructions/take.rs:109-129 | The vault withdrawal changes no balance of any mint other than A. |
| EscrowTake.CloseEscrow | anchor-escrow-starter-q4-25/programs/anchor-escrow-q4-25/src/instructions/take.rs:69-76 | The escrow record ends empty. Its lamports go to the maker, and nothing else changes. |
| EscrowTake.ExchangeEffects | anchor-escrow-starter-q4-25/programs/anchor-escrow-q4-25/src/instructions/take.rs:90-145 | Deposit, withdraw-and-close and the record's close together conserve every mint and the lamports. They write only the instruction's accounts and leave the vault and the record empty. |
| EscrowTake.TakeEffects | anchor-escrow-starter-q4-25/programs/anchor-escrow-q4-25/src/instructions/take.rs:15-145 | A successful `take` conserves every mint and the lamports, writes no account outside its own, and empties the vault and the record. It happens only when the record names this maker and these two mints. |
| EscrowTake.Take | anchor-escrow-starter-q4-25/programs/anchor-escrow-q4-25/src/instructions/take.rs:15-145 | A failing account check is the instruction's error. Success needs every check to pass and `taker_ata_a` to be creatable. A successful `take` keeps the ledger's size and leaves the vault and the escrow record empty. |
| EscrowTake.Exchange | anchor-escrow-starter-q4-25/programs/anchor-escrow-q4-25/src/instructions/take.rs:90-145 | A successful exchange needs the deposit to succeed. It keeps the ledger's size and leaves the vault and the escrow record empty. |
| EscrowTake.CloseOut | anchor-escrow-starter-q4-25/programs/anchor-escrow-q4-25/src/instructions/take.rs:107-145 | `withdraw_and_close_vault` and the record's close write only the vault, `taker_ata_a`, the maker and the record. `taker_ata_a` gains the vault's whole balance, and the vault and the record end empty. |
| EscrowTake.ExchangeMovesBalances | anchor-escrow-starter-q4-25/programs/anchor-escrow-q4-25/src/instructions/take.rs:90-145 | Requires distinct taker and maker and distinct mints. The maker's mint-B account gains `receive` and the taker's loses it. The taker's mint-A account gains the whole vault, and the maker gains the vault's and the record's lamports. |
| EscrowTake.TakeMovesBalances | anchor-escrow-starter-q4-25/programs/anchor-escrow-q4-25/src/instructions/take.rs:15-145 | The same exact deltas for the whole instruction, including the creation of `taker_ata_a`. |
| EscrowTake.TakeBySelfKeepsMintB | anchor-escrow-starter-q4-25/programs/anchor-escrow-q4-25/src/instructions/take.rs:93-102 | When taker and maker are the same wallet, the mint-B payment goes from the account to itself and its balance is unchanged. |
| EscrowTake.TakeRejectsOtherMaker | anchor-escrow-starter-q4-25/programs/anchor-escrow-q4-25/src/instructions/take.rs:74 | A record naming another maker rejects the take with `ConstraintHasOne`. |
| EscrowTake.TakeRejectsOtherMints | anchor-escrow-starter-q4-25/programs/anchor-escrow-q4-25/src/instructions/take.rs:49-59 | With the right maker, a mint other than the record's rejects the take with `ConstraintAddress`. |
| EscrowTake.TakeNeedsMakerAtaB | anchor-escrow-starter-q4-25/programs/anchor-escrow-q4-25/src/instructions/take.rs:40-47 | A missing `maker_ata_b` always fails the take, since its payer is the maker, who does not sign. |
| EscrowProgram.Take.Deposit | anchor-escrow-starter-q4-25/programs/anchor-escrow-q4-25/src/instructions/take.rs:90-105 | The method returns the outcome of `EscrowTake.Deposit` and leaves its ledger. A failure leaves the ledger as it was. |
| EscrowProgram.Take.WithdrawAndCloseVault | anchor-escrow-starter-q4-25/programs/anchor-escrow-q4-25/src/instructions/take.rs:107-145 | The method returns the outcome of `EscrowTake.WithdrawAndCloseVault` and leaves its ledger. A failure leaves the ledger as it was. |
| EscrowProgram.Take.Exchange | anchor-escrow-starter-q4-25/programs/anchor-escrow-q4-25/src/instructions/take.rs:90-145 | The two handler steps and the record's close, stopping at the first error. On success the ledger is the one `EscrowTake.Exchange` describes. |
| EscrowProgram.Take.CloseOut | anchor-escrow-starter-q4-25/programs/anchor-escrow-q4-25/src/instructions/take.rs:107-145 | `withdraw_and_close_vault` and then the record's close. On success the ledger is the one `EscrowTake.CloseOut` describes. |
| EscrowProgram.Take.Run | anchor-escrow-starter-q4-25/programs/anchor-escrow-q4-25/src/instructions/take.rs:15-145 | The whole instruction returns the outcome of `EscrowTake.Take` and leaves its ledger. Any failure restores the ledger. |
| DiceBetEncoding.WriteBigUInt64LE | anchor-dice-game-starter-q4-25/tests/anchor-dice-game-q4-25.ts:13-14 | It succeeds exactly for a u64 value and an in-bounds offset. A range error is reported before a bounds error. On success the 8 bytes hold the value little-endian and no other byte changes; on failure nothing changes. |
| DiceBetEncoding.CopyInto | anchor-dice-game-starter-q4-25/tests/anchor-dice-game-q4-25.ts:27-28 | The leading bytes of the source that fit land at `start`. No other byte changes. |
| DiceBetEncoding.U128ToLeBytes | anchor-dice-game-starter-q4-25/tests/anchor-dice-game-q4-25.ts:9-16 | It succeeds exactly for `0 <= n < 2^128` and otherwise throws a range error. The result has 16 bytes: `n mod 2^64` little-endian, then `n >> 64` little-endian. It decodes to `n` and is `n`'s 16-byte little-endian encoding. |
| DiceBetEncoding.HighHalfFits | anchor-dice-game-starter-q4-25/tests/anchor-dice-game-q4-25.ts:12-14 | `n >> 64` fits a u64 exactly when `n` fits a u128. |
| DiceBetEncoding.U128Value | anchor-dice-game-starter-q4-25/tests/anchor-dice-game-q4-25.ts:11-14 | The two halves together denote `n` and are its 16-byte encoding. |
| DiceBetEncoding.BetToSlice | anchor-dice-game-starter-q4-25/tests/anchor-dice-game-q4-25.ts:18-34 | It throws a range error exactly when the seed is not a u128 or the slot or the amount is not a u64. Otherwise it returns the 66-byte layout `EncodeBet` describes. |
| DiceBetEncoding.EncodeBet | anchor-dice-game-starter-q4-25/tests/anchor-dice-game-q4-25.ts:26-32 | A laid-out bet is 66 bytes long. |
| DiceBetEncoding.WritesMakeLayout | anchor-dice-game-starter-q4-25/tests/anchor-dice-game-q4-25.ts:26-32 | The four range writes and two byte stores, in source order, produce exactly the bet's layout. |
| DiceBetEncoding.DecodeEncodeBet | anchor-dice-game-starter-q4-25/tests/anchor-dice-game-q4-25.ts:26-33 | Reading each range back recovers every field, with roll and bump taken modulo 256. |
| DiceBetEncoding.EncodeDecodeBet | anchor-dice-game-starter-q4-25/tests/anchor-dice-game-q4-25.ts:26-33 | The ranges are disjoint and cover all 66 bytes. Every 66-byte string is the layout of its own decoding. |
| LittleEndian.LeValueOfLeBytes | anchor-dice-game-starter-q4-25/tests/anchor-dice-game-q4-25.ts:9-16 | Decoding the `w`-byte little-endian encoding of `v < 256^w` gives `v`. |
| LittleEndian.LeBytesOfLeValue | anchor-dice-game-starter-q4-25/tests/anchor-dice-game-q4-25.ts:9-16 | Encoding what a byte string denotes, in as many bytes, gives the string back. |

## Left out

- The `constant_product_curve` crate is not part of this model. `ConstantProductCurve` is an
  assumed contract with these terms:
  - the fee is taken on the input and rounded down;
  - the output reserve is rounded up;
  - a withdrawal pays `floor(amount * reserve / supply)`;
  - `init` rejects only a fee above 100%.

  No claim is made that the crate rounds exactly this way. The `l` and `precision` arguments are
  passed through and not used.
- AmmWithdraw.Withdraw: the curve is assumed not to fail once the guards pass, so the
  `AmmError::CurveError` path of `withdraw.rs:91` is not modelled.
- Token-program `transfer` and `burn` inside the AMM are modelled only by their balance effect.
  Signer seeds, account ownership and CPI plumbing are left out.
- AmmSwap.Swap: the model does not promise that the user's output balance strictly rises. With
  a small enough trade the rounded output is 0. The two test swaps are proved to raise it
  (`SwapXForYScenario`, `SwapYForXScenario`).
- Anchor account mechanics are abstracted: PDA and bump derivation, associated-token-account
  derivation, rent and space.
  - The DAO's proposal and vote addresses are map keys.
  - The escrow's addresses follow `WellFormed`, which states what address derivation
    guarantees.
  - The rent of a new `taker_ata_a` is a parameter.
- EscrowTake.CheckAccounts: the error reported when several account constraints fail is not
  Anchor's. Anchor loads every account of the `Take` struct before it checks any constraint, so
  a missing or mistyped account fails first. The model instead checks the escrow record first
  (`take.rs:69-76`: existence, then `has_one = maker`, then the `address` constraints of the two
  mints), then `taker_ata_a`, `taker_ata_b`, `maker`, `maker_ata_b` and the vault. Which
  instructions succeed is unaffected; only the error code differs when several checks fail.
- The escrow's `seeds` and `bump` check against `maker.key()` (`take.rs:72-73`) is abstracted:
  the escrow record is taken to sit at its derived address, and only `has_one` compares makers.
- Accounts of other kinds and mint accounts are not modelled. In particular the model leaves
  out mint decimals (`transfer_checked`'s decimals argument) and the taker's own signer account.
- `lib.rs` of the escrow program is not part of this model. `take` is taken to call `deposit` and
  then `withdraw_and_close_vault`, and Anchor then closes the escrow record into the maker on exit.
- IntegerSqrt.ISqrt: `cast_vote` computes the credits with an `f64` square root. The model uses
  the exact integer square root. The two can differ for balances above about 2^52, where `f64`
  rounds.
- `proposal_count += 1` is modelled with overflow checks on (Anchor's default release profile):
  overflow aborts with an arithmetic error.
- The DAO's `init_dao`, the AMM's `initialize` and `deposit`, the escrow's `make` and `refund`,
  and the dice program's instructions are not part of this model.
- `lib.rs` dispatch, the test harnesses, RPC calls, airdrops, Ed25519 signing and the
  `solana-starter` scripts are not part of this model. They are I/O over external libraries.
- DiceBetEncoding.BetToSlice: `roll` and `bump` are integers. A JavaScript number that is not
  an integer (or NaN) stored into a buffer is not modelled.
- DiceBetEncoding.CopyInto: requires `start <= buf.Length`. Node's out-of-range `targetStart`
  error is not modelled, because the encoder never triggers it.
- TokenLedger.TransferChecked: the token program's frozen-account check and delegate
  authority are not modelled. Only the owner may sign a transfer, and no account is frozen.
- Concurrency and transaction atomicity are not modelled beyond "a failed instruction leaves
  every account as it was".
