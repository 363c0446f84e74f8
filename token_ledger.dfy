/**
 * The part of the token program and the runtime that the escrow's `take` relies on: accounts
 * addressed by index, each holding lamports and either nothing, a token balance of one mint with
 * an owner, or an escrow record. `transfer_checked` and `close_account` are functions on the whole
 * ledger, and both are proved to conserve every mint's total and the total of lamports.
 */
module TokenLedger {
  import opened Common

  /** An account's address: its index in the ledger. */
  type Address = nat

  /** The escrow program's record: what the maker offers (all of the vault) and wants (`receive`). */
  datatype Escrow = Escrow(seed: nat, maker: Address, mintA: Address, mintB: Address, receive: nat)

  datatype AccountData =
    | Empty
    | TokenAccount(mint: Address, owner: Address, amount: nat)
    | EscrowAccount(escrow: Escrow)

  datatype Account = Account(lamports: nat, data: AccountData)

  type Ledger = seq<Account>

  datatype TokenError =
    | InvalidAccountData     // not a token account, or an account closed into itself
    | InsufficientFunds
    | MintMismatch
    | OwnerMismatch
    | NonNativeHasBalance    // closing a token account that still holds tokens
    | Overflow

  /** The tokens of `mint` an account holds. */
  function AmountOf(a: Account, mint: Address): nat
  {
    if a.data.TokenAccount? && a.data.mint == mint then a.data.amount else 0
  }

  function LamportsOf(a: Account): nat
  {
    a.lamports
  }

  /** The sum of `f` over every account. */
  function Total(l: Ledger, f: Account -> nat): nat
  {
    if l == [] then 0 else Total(l[..|l| - 1], f) + f(l[|l| - 1])
  }

  /** Every token of `mint` in the ledger. */
  function MintTotal(l: Ledger, mint: Address): nat
  {
    Total(l, a => AmountOf(a, mint))
  }

  /** Every lamport in the ledger. */
  function LamportTotal(l: Ledger): nat
  {
    Total(l, LamportsOf)
  }

  /** Accounts other than those listed are the same in both ledgers. */
  predicate OthersUnchanged(l: Ledger, l': Ledger, touched: set<Address>)
  {
    |l'| == |l| && forall i :: 0 <= i < |l| && i !in touched ==> l'[i] == l[i]
  }

  /**
   * `transfer_checked(from, to, mint, authority, amount)`, with the token program's checks in its
   * order: the balance, the two mints, the owner; a transfer to the same account changes nothing;
   * the credit must not overflow a `u64`.
   */
  function TransferChecked(l: Ledger, from: Address, to: Address, mint: Address, authority: Address, amount: nat)
    : (r: Result<Ledger, TokenError>)
    requires from < |l| && to < |l|
    ensures r.Ok? ==> OthersUnchanged(l, r.value, {from, to})
    ensures r.Ok? ==> && l[from].data.TokenAccount? && l[to].data.TokenAccount?
                      && l[from].data.mint == mint && l[to].data.mint == mint
                      && l[from].data.owner == authority && amount <= l[from].data.amount
    ensures r.Ok? && from != to ==> && AmountOf(r.value[from], mint) + amount == AmountOf(l[from], mint)
                                    && AmountOf(r.value[to], mint) == AmountOf(l[to], mint) + amount
    ensures r.Ok? ==> && r.value[from].lamports == l[from].lamports && r.value[to].lamports == l[to].lamports
                      && r.value[from].data.TokenAccount? && r.value[to].data.TokenAccount?
                      && r.value[from].data.mint == mint && r.value[to].data.mint == mint
  {
    var src, dst := l[from], l[to];
    if !src.data.TokenAccount? || !dst.data.TokenAccount? then Err(InvalidAccountData)
    else if src.data.amount < amount then Err(InsufficientFunds)
    else if src.data.mint != dst.data.mint || src.data.mint != mint then Err(MintMismatch)
    else if src.data.owner != authority then Err(OwnerMismatch)
    else if from == to then Ok(l)
    else if dst.data.amount + amount > U64_MAX then Err(Overflow)
    else
      var l1 := l[from := src.(data := src.data.(amount := src.data.amount - amount))];
      var l2 := l1[to := dst.(data := dst.data.(amount := dst.data.amount + amount))];
      Ok(l2)
  }

  /**
   * `close_account(account, destination, authority)`: the token program refuses to close an
   * account into itself or one that still holds tokens, and checks the owner; the account's
   * lamports then go to `destination` and its data is cleared.
   */
  function CloseAccount(l: Ledger, account: Address, destination: Address, authority: Address)
    : (r: Result<Ledger, TokenError>)
    requires account < |l| && destination < |l|
    ensures r.Ok? ==> OthersUnchanged(l, r.value, {account, destination})
    ensures r.Ok? ==> && l[account].data.TokenAccount? && l[account].data.amount == 0
                      && l[account].data.owner == authority && account != destination
    ensures r.Ok? ==> r.value == Drain(l, account, destination)
  {
    var acct := l[account];
    if !acct.data.TokenAccount? then Err(InvalidAccountData)
    else if account == destination then Err(InvalidAccountData)
    else if acct.data.amount != 0 then Err(NonNativeHasBalance)
    else if acct.data.owner != authority then Err(OwnerMismatch)
    else if l[destination].lamports + acct.lamports > U64_MAX then Err(Overflow)
    else
      Ok(Drain(l, account, destination))
  }

  /**
   * Anchor's `close = destination` on a program-owned account (never a token account, never its
   * own destination): its lamports go to `destination` (an overflow aborts) and its data is cleared.
   */
  function CloseProgramAccount(l: Ledger, account: Address, destination: Address): (r: Result<Ledger, TokenError>)
    requires account < |l| && destination < |l| && account != destination
    requires !l[account].data.TokenAccount?
    ensures r.Ok? ==> OthersUnchanged(l, r.value, {account, destination})
    ensures r.Ok? ==> r.value == Drain(l, account, destination)
    ensures r.Err? <==> l[destination].lamports + l[account].lamports > U64_MAX
  {
    if l[destination].lamports + l[account].lamports > U64_MAX then Err(Overflow)
    else
      Ok(Drain(l, account, destination))
  }

  /** Moves all of `account`'s lamports to `destination` and leaves `account` empty. */
  function Drain(l: Ledger, account: Address, destination: Address): (r: Ledger)
    requires account < |l| && destination < |l| && account != destination
    ensures OthersUnchanged(l, r, {account, destination})
    ensures r[account] == Account(0, Empty)
    ensures r[destination] == l[destination].(lamports := l[destination].lamports + l[account].lamports)
  {
    var l1 := l[account := Account(0, Empty)];
    l1[destination := l[destination].(lamports := l[destination].lamports + l[account].lamports)]
  }

  // ---------------------------------------------------------------------------------------------
  // Conservation

  /** Replacing one account changes a total by the difference between the new and old account. */
  lemma {:induction false} TotalUpdate(l: Ledger, i: nat, a: Account, f: Account -> nat)
    requires i < |l|
    ensures Total(l[i := a], f) + f(l[i]) == Total(l, f) + f(a)
    decreases |l|
  {
    var n := |l| - 1;
    if i == n {
      assert l[i := a][..n] == l[..n];
    } else {
      assert l[i := a][..n] == l[..n][i := a];
      TotalUpdate(l[..n], i, a, f);
    }
  }

  /** A transfer moves tokens between accounts of one mint and creates or destroys none, of any mint. */
  lemma TransferCheckedConserves(l: Ledger, from: Address, to: Address, mint: Address, authority: Address, amount: nat)
    requires from < |l| && to < |l| && TransferChecked(l, from, to, mint, authority, amount).Ok?
    ensures var r := TransferChecked(l, from, to, mint, authority, amount).value;
            (forall m :: MintTotal(r, m) == MintTotal(l, m)) && LamportTotal(r) == LamportTotal(l)
  {
    if from != to {
      var src, dst := l[from], l[to];
      var l1 := l[from := src.(data := src.data.(amount := src.data.amount - amount))];
      var l2 := l1[to := dst.(data := dst.data.(amount := dst.data.amount + amount))];
      TransferConserves(l, from, to, amount, l1, l2);
    }
  }

  /** A transfer of one mint changes no balance of any other mint. */
  lemma TransferCheckedKeepsOtherMints(l: Ledger, from: Address, to: Address, mint: Address, authority: Address,
                                       amount: nat, i: Address, m: Address)
    requires from < |l| && to < |l| && TransferChecked(l, from, to, mint, authority, amount).Ok?
    requires i < |l| && m != mint
    ensures AmountOf(TransferChecked(l, from, to, mint, authority, amount).value[i], m) == AmountOf(l[i], m)
  {
  }

  lemma TransferConserves(l: Ledger, from: Address, to: Address, amount: nat, l1: Ledger, l2: Ledger)
    requires from < |l| && to < |l| && from != to
    requires l[from].data.TokenAccount? && l[to].data.TokenAccount?
    requires l[from].data.mint == l[to].data.mint && amount <= l[from].data.amount
    requires l1 == l[from := l[from].(data := l[from].data.(amount := l[from].data.amount - amount))]
    requires l2 == l1[to := l[to].(data := l[to].data.(amount := l[to].data.amount + amount))]
    ensures forall m :: MintTotal(l2, m) == MintTotal(l, m)
    ensures LamportTotal(l2) == LamportTotal(l)
  {
    forall m ensures MintTotal(l2, m) == MintTotal(l, m) {
      var f := a => AmountOf(a, m);
      TotalUpdate(l, from, l1[from], f);
      TotalUpdate(l1, to, l2[to], f);
    }
    TotalUpdate(l, from, l1[from], LamportsOf);
    TotalUpdate(l1, to, l2[to], LamportsOf);
  }

  /** Closing an account that holds no tokens destroys no token and no lamport. */
  lemma DrainConserves(l: Ledger, account: Address, destination: Address)
    requires account < |l| && destination < |l| && account != destination
    requires !l[account].data.TokenAccount? || l[account].data.amount == 0
    ensures forall m :: MintTotal(Drain(l, account, destination), m) == MintTotal(l, m)
    ensures LamportTotal(Drain(l, account, destination)) == LamportTotal(l)
  {
    var l1 := l[account := Account(0, Empty)];
    var l2 := Drain(l, account, destination);
    forall m ensures MintTotal(l2, m) == MintTotal(l, m) {
      var f := a => AmountOf(a, m);
      TotalUpdate(l, account, Account(0, Empty), f);
      TotalUpdate(l1, destination, l2[destination], f);
    }
    TotalUpdate(l, account, Account(0, Empty), LamportsOf);
    TotalUpdate(l1, destination, l2[destination], LamportsOf);
  }
}
