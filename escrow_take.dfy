/**
 * The escrow program's `take` instruction. The taker pays the escrow's `receive` amount of mint B
 * to the maker, receives every mint-A token held in the vault, and the vault and the escrow record
 * are closed with their lamports going to the maker. The account constraints that bind the mints
 * and the maker to the escrow record are checked first; a failure anywhere undoes everything.
 */
module EscrowTake {
  import opened Common
  import opened TokenLedger

  datatype TakeError =
    | AccountNotInitialized       // a required account holds nothing
    | AccountOwnedByWrongProgram  // a token account or escrow slot holds another kind of account
    | AccountNotSystemOwned       // `maker` holds program data
    | ConstraintHasOne            // the escrow record names another maker
    | ConstraintAddress           // a mint is not the one the escrow record names
    | ConstraintTokenMint         // a token account is for another mint
    | ConstraintTokenOwner        // a token account has another owner
    | MissingRequiredSignature    // creating `maker_ata_b` needs the maker, who does not sign
    | InsufficientLamports        // the taker cannot pay the rent of a new `taker_ata_a`
    | Token(cause: TokenError)    // a token-program call or the final close failed

  /** The accounts `take` is given, by address. */
  datatype TakeAccounts = TakeAccounts(
    taker: Address,
    takerAtaA: Address,
    takerAtaB: Address,
    maker: Address,
    makerAtaB: Address,
    mintA: Address,
    mintB: Address,
    vault: Address,
    escrow: Address)

  /** Associated token accounts share an address exactly when they share owner and mint. */
  predicate AtaAddresses(owner1: Address, mint1: Address, ata1: Address, owner2: Address, mint2: Address, ata2: Address)
  {
    ata1 == ata2 <==> owner1 == owner2 && mint1 == mint2
  }

  /**
   * What address derivation guarantees about the accounts: each is in the ledger; the two wallets
   * and the escrow record are not token accounts' addresses; the escrow record, an address off the
   * curve, is neither wallet; and the four associated token accounts follow `AtaAddresses`. The
   * taker and the maker may be the same wallet, and the two mints may be the same mint.
   */
  predicate WellFormed(acc: TakeAccounts, l: Ledger)
  {
    && acc.taker < |l| && acc.takerAtaA < |l| && acc.takerAtaB < |l| && acc.maker < |l|
    && acc.makerAtaB < |l| && acc.vault < |l| && acc.escrow < |l|
    && acc.taker != acc.takerAtaA && acc.taker != acc.takerAtaB && acc.taker != acc.makerAtaB && acc.taker != acc.vault
    && acc.maker != acc.takerAtaA && acc.maker != acc.takerAtaB && acc.maker != acc.makerAtaB && acc.maker != acc.vault
    && acc.escrow != acc.takerAtaA && acc.escrow != acc.takerAtaB && acc.escrow != acc.makerAtaB
    && acc.escrow != acc.vault && acc.escrow != acc.taker && acc.escrow != acc.maker
    && AtaAddresses(acc.taker, acc.mintA, acc.takerAtaA, acc.taker, acc.mintB, acc.takerAtaB)
    && AtaAddresses(acc.taker, acc.mintA, acc.takerAtaA, acc.maker, acc.mintB, acc.makerAtaB)
    && AtaAddresses(acc.taker, acc.mintA, acc.takerAtaA, acc.escrow, acc.mintA, acc.vault)
    && AtaAddresses(acc.taker, acc.mintB, acc.takerAtaB, acc.maker, acc.mintB, acc.makerAtaB)
    && AtaAddresses(acc.taker, acc.mintB, acc.takerAtaB, acc.escrow, acc.mintA, acc.vault)
    && AtaAddresses(acc.maker, acc.mintB, acc.makerAtaB, acc.escrow, acc.mintA, acc.vault)
  }

  /** The mint and owner constraints of an associated token account that must already exist. */
  function CheckTokenAccount(a: Account, mint: Address, owner: Address): (r: Outcome<TakeError>)
    ensures r.Pass? <==> a.data.TokenAccount? && a.data.mint == mint && a.data.owner == owner
  {
    match a.data
    case Empty => Fail(AccountNotInitialized)
    case EscrowAccount(_) => Fail(AccountOwnedByWrongProgram)
    case TokenAccount(m, o, _) =>
      if m != mint then Fail(ConstraintTokenMint)
      else if o != owner then Fail(ConstraintTokenOwner)
      else Pass
  }

  /** The escrow record every valid `take` reads. */
  predicate HoldsEscrow(l: Ledger, acc: TakeAccounts)
    requires acc.escrow < |l|
  {
    l[acc.escrow].data.EscrowAccount?
  }

  /**
   * The constraints of the `Take` accounts, in the model's order: the escrow record exists and
   * names this maker (`has_one`) and these two mints (`address`); then the taker's and maker's mint-B accounts and the
   * vault exist with the right mint and owner; an existing `taker_ata_a` has mint A and the taker as
   * owner; a missing `maker_ata_b` would be paid for by the maker, who is not a signer.
   */
  function CheckAccounts(l: Ledger, acc: TakeAccounts): (r: Outcome<TakeError>)
    requires WellFormed(acc, l)
    ensures r.Pass? ==> && HoldsEscrow(l, acc)
                        && l[acc.escrow].data.escrow.maker == acc.maker
                        && l[acc.escrow].data.escrow.mintA == acc.mintA
                        && l[acc.escrow].data.escrow.mintB == acc.mintB
    ensures r.Pass? ==> && (l[acc.takerAtaA].data.Empty? || CheckTokenAccount(l[acc.takerAtaA], acc.mintA, acc.taker).Pass?)
                        && CheckTokenAccount(l[acc.takerAtaB], acc.mintB, acc.taker).Pass?
                        && CheckTokenAccount(l[acc.makerAtaB], acc.mintB, acc.maker).Pass?
                        && CheckTokenAccount(l[acc.vault], acc.mintA, acc.escrow).Pass?
                        && l[acc.maker].data.Empty?
  {
    match l[acc.escrow].data
    case Empty => Fail(AccountNotInitialized)
    case TokenAccount(_, _, _) => Fail(AccountOwnedByWrongProgram)
    case EscrowAccount(e) =>
      if e.maker != acc.maker then Fail(ConstraintHasOne)
      else if e.mintA != acc.mintA || e.mintB != acc.mintB then Fail(ConstraintAddress)
      else if !l[acc.takerAtaA].data.Empty? && CheckTokenAccount(l[acc.takerAtaA], acc.mintA, acc.taker).Fail? then
        CheckTokenAccount(l[acc.takerAtaA], acc.mintA, acc.taker)
      else if CheckTokenAccount(l[acc.takerAtaB], acc.mintB, acc.taker).Fail? then
        CheckTokenAccount(l[acc.takerAtaB], acc.mintB, acc.taker)
      else if !l[acc.maker].data.Empty? then Fail(AccountNotSystemOwned)
      else if l[acc.makerAtaB].data.Empty? then Fail(MissingRequiredSignature)
      else if CheckTokenAccount(l[acc.makerAtaB], acc.mintB, acc.maker).Fail? then
        CheckTokenAccount(l[acc.makerAtaB], acc.mintB, acc.maker)
      else CheckTokenAccount(l[acc.vault], acc.mintA, acc.escrow)
  }

  /**
   * `init_if_needed` on `taker_ata_a`: a missing account is created as an empty mint-A account of
   * the taker, who moves `rent` lamports into it.
   */
  function CreateTakerAtaA(l: Ledger, acc: TakeAccounts, rent: nat): (r: Result<Ledger, TakeError>)
    requires WellFormed(acc, l)
    ensures r.Ok? ==> OthersUnchanged(l, r.value, {acc.taker, acc.takerAtaA})
    ensures r.Ok? && !l[acc.takerAtaA].data.Empty? ==> r.value == l
    ensures r.Ok? && l[acc.takerAtaA].data.Empty? ==>
              && r.value[acc.takerAtaA].data == TokenAccount(acc.mintA, acc.taker, 0)
              && r.value[acc.taker].lamports + rent == l[acc.taker].lamports
              && r.value[acc.taker].data == l[acc.taker].data
    ensures r.Err? <==> l[acc.takerAtaA].data.Empty? && l[acc.taker].lamports < rent
  {
    if !l[acc.takerAtaA].data.Empty? then Ok(l)
    else if l[acc.taker].lamports < rent then Err(InsufficientLamports)
    else
      var payer := l[acc.taker].(lamports := l[acc.taker].lamports - rent);
      var ata := Account(l[acc.takerAtaA].lamports + rent, TokenAccount(acc.mintA, acc.taker, 0));
      Ok(l[acc.taker := payer][acc.takerAtaA := ata])
  }

  /** Creating `taker_ata_a` moves the rent from the taker into it and creates no token. */
  lemma CreateTakerAtaAConserves(l: Ledger, acc: TakeAccounts, rent: nat)
    requires WellFormed(acc, l) && CreateTakerAtaA(l, acc, rent).Ok?
    ensures var r := CreateTakerAtaA(l, acc, rent).value;
            (forall m :: MintTotal(r, m) == MintTotal(l, m)) && LamportTotal(r) == LamportTotal(l)
  {
    if l[acc.takerAtaA].data.Empty? {
      var payer := l[acc.taker].(lamports := l[acc.taker].lamports - rent);
      var ata := Account(l[acc.takerAtaA].lamports + rent, TokenAccount(acc.mintA, acc.taker, 0));
      var l1 := l[acc.taker := payer];
      var l2 := l1[acc.takerAtaA := ata];
      assert CreateTakerAtaA(l, acc, rent).value == l2;
      forall m ensures MintTotal(l2, m) == MintTotal(l, m) {
        var f := a => AmountOf(a, m);
        TotalUpdate(l, acc.taker, payer, f);
        TotalUpdate(l1, acc.takerAtaA, ata, f);
      }
      TotalUpdate(l, acc.taker, payer, LamportsOf);
      TotalUpdate(l1, acc.takerAtaA, ata, LamportsOf);
    }
  }

  /** `Take::deposit`: the taker pays `escrow.receive` of mint B into the maker's mint-B account. */
  function Deposit(l: Ledger, acc: TakeAccounts): (r: Result<Ledger, TakeError>)
    requires WellFormed(acc, l) && HoldsEscrow(l, acc)
    ensures r.Ok? ==> OthersUnchanged(l, r.value, {acc.takerAtaB, acc.makerAtaB})
    ensures r.Ok? && acc.takerAtaB != acc.makerAtaB ==>
              var receive := l[acc.escrow].data.escrow.receive;
              && AmountOf(r.value[acc.takerAtaB], acc.mintB) + receive == AmountOf(l[acc.takerAtaB], acc.mintB)
              && AmountOf(r.value[acc.makerAtaB], acc.mintB) == AmountOf(l[acc.makerAtaB], acc.mintB) + receive
  {
    var receive := l[acc.escrow].data.escrow.receive;
    match TransferChecked(l, acc.takerAtaB, acc.makerAtaB, acc.mintB, acc.taker, receive)
    case Err(e) => Err(Token(e))
    case Ok(l1) => Ok(l1)
  }

  /** The balance field of a token account, as the instruction reads it from `vault`. */
  function TokenAmount(a: Account): nat
  {
    if a.data.TokenAccount? then a.data.amount else 0
  }

  /**
   * `Take::withdraw_and_close_vault`: the escrow record, as the vault's owner, sends the vault's
   * whole balance to the taker's mint-A account and then closes the vault into the maker.
   */
  function WithdrawAndCloseVault(l: Ledger, acc: TakeAccounts): (r: Result<Ledger, TakeError>)
    requires WellFormed(acc, l)
    ensures r.Ok? ==> OthersUnchanged(l, r.value, {acc.vault, acc.takerAtaA, acc.maker})
    ensures r.Ok? ==> && r.value[acc.vault] == Account(0, Empty)
                      && AmountOf(r.value[acc.takerAtaA], acc.mintA) == AmountOf(l[acc.takerAtaA], acc.mintA) + TokenAmount(l[acc.vault])
                      && r.value[acc.maker].lamports == l[acc.maker].lamports + l[acc.vault].lamports
                      && r.value[acc.maker].data == l[acc.maker].data
  {
    var amount := TokenAmount(l[acc.vault]);
    match TransferChecked(l, acc.vault, acc.takerAtaA, acc.mintA, acc.escrow, amount)
    case Err(e) => Err(Token(e))
    case Ok(l1) =>
      match CloseAccount(l1, acc.vault, acc.maker, acc.escrow)
      case Err(e) => Err(Token(e))
      case Ok(l2) => Ok(l2)
  }

  /** The deposit changes no balance of a mint other than B: in particular no mint-A balance. */
  lemma DepositKeepsOtherMints(l: Ledger, acc: TakeAccounts, i: Address, m: Address)
    requires WellFormed(acc, l) && HoldsEscrow(l, acc) && Deposit(l, acc).Ok?
    requires i < |l| && m != acc.mintB
    ensures AmountOf(Deposit(l, acc).value[i], m) == AmountOf(l[i], m)
  {
    var receive := l[acc.escrow].data.escrow.receive;
    TransferCheckedKeepsOtherMints(l, acc.takerAtaB, acc.makerAtaB, acc.mintB, acc.taker, receive, i, m);
  }

  /** The vault withdrawal changes no balance of a mint other than A: in particular no mint-B balance. */
  lemma WithdrawKeepsOtherMints(l: Ledger, acc: TakeAccounts, i: Address, m: Address)
    requires WellFormed(acc, l) && WithdrawAndCloseVault(l, acc).Ok?
    requires i < |l| && m != acc.mintA
    ensures AmountOf(WithdrawAndCloseVault(l, acc).value[i], m) == AmountOf(l[i], m)
  {
    var amount := TokenAmount(l[acc.vault]);
    TransferCheckedKeepsOtherMints(l, acc.vault, acc.takerAtaA, acc.mintA, acc.escrow, amount, i, m);
    var l1 := TransferChecked(l, acc.vault, acc.takerAtaA, acc.mintA, acc.escrow, amount).value;
    assert AmountOf(WithdrawAndCloseVault(l, acc).value[i], m) == AmountOf(l1[i], m);
  }

  /** `close = maker` on the escrow record, run by the runtime when the instruction returns. */
  function CloseEscrow(l: Ledger, acc: TakeAccounts): (r: Result<Ledger, TakeError>)
    requires WellFormed(acc, l) && HoldsEscrow(l, acc)
    ensures r.Ok? ==> OthersUnchanged(l, r.value, {acc.escrow, acc.maker})
    ensures r.Ok? ==> && r.value[acc.escrow] == Account(0, Empty)
                      && r.value[acc.maker] == l[acc.maker].(lamports := l[acc.maker].lamports + l[acc.escrow].lamports)
  {
    match CloseProgramAccount(l, acc.escrow, acc.maker)
    case Err(e) => Err(Token(e))
    case Ok(l1) => Ok(l1)
  }

  /** The accounts a successful `take` writes. */
  function Touched(acc: TakeAccounts): set<Address>
  {
    {acc.taker, acc.takerAtaA, acc.takerAtaB, acc.maker, acc.makerAtaB, acc.vault, acc.escrow}
  }

  /**
   * The exchange proper, once the accounts are in place: `deposit`, `withdraw_and_close_vault`,
   * and the closing of the escrow record into the maker when the handler returns.
   */
  function Exchange(l: Ledger, acc: TakeAccounts): (r: Result<Ledger, TakeError>)
    requires WellFormed(acc, l) && HoldsEscrow(l, acc)
    ensures r.Ok? ==> Deposit(l, acc).Ok?
    ensures r.Ok? ==> |r.value| == |l|
    ensures r.Ok? ==> r.value[acc.vault] == Account(0, Empty) && r.value[acc.escrow] == Account(0, Empty)
  {
    match Deposit(l, acc)
    case Err(e) => Err(e)
    case Ok(l1) => CloseOut(l1, acc)
  }

  /** The second half of the exchange: `withdraw_and_close_vault`, then the escrow record's close. */
  function CloseOut(l: Ledger, acc: TakeAccounts): (r: Result<Ledger, TakeError>)
    requires WellFormed(acc, l) && HoldsEscrow(l, acc)
    ensures r.Ok? ==> OthersUnchanged(l, r.value, {acc.vault, acc.takerAtaA, acc.maker, acc.escrow})
    ensures r.Ok? ==> r.value[acc.vault] == Account(0, Empty) && r.value[acc.escrow] == Account(0, Empty)
    ensures r.Ok? ==> AmountOf(r.value[acc.takerAtaA], acc.mintA) == AmountOf(l[acc.takerAtaA], acc.mintA) + TokenAmount(l[acc.vault])
  {
    match WithdrawAndCloseVault(l, acc)
    case Err(e) => Err(e)
    case Ok(l1) =>
      assert l1[acc.escrow] == l[acc.escrow];
      CloseEscrow(l1, acc)
  }

  /** The whole instruction: the account constraints, `init_if_needed` on `taker_ata_a`, then the exchange. */
  function Take(l: Ledger, acc: TakeAccounts, rent: nat): (r: Result<Ledger, TakeError>)
    requires WellFormed(acc, l)
    ensures CheckAccounts(l, acc).Fail? ==> r == Err(CheckAccounts(l, acc).error)
    ensures r.Ok? ==> CheckAccounts(l, acc).Pass? && CreateTakerAtaA(l, acc, rent).Ok?
    ensures r.Ok? ==> |r.value| == |l|
    ensures r.Ok? ==> r.value[acc.vault] == Account(0, Empty) && r.value[acc.escrow] == Account(0, Empty)
  {
    match CheckAccounts(l, acc)
    case Fail(e) => Err(e)
    case Pass =>
      match CreateTakerAtaA(l, acc, rent)
      case Err(e) => Err(e)
      case Ok(l1) => Exchange(l1, acc)
  }

  /**
   * A successful exchange conserves every mint and the lamports, writes only the instruction's
   * token accounts, the maker and the escrow record, and leaves the vault and the record empty.
   */
  lemma ExchangeEffects(l: Ledger, acc: TakeAccounts)
    requires WellFormed(acc, l) && HoldsEscrow(l, acc) && Exchange(l, acc).Ok?
    ensures var r := Exchange(l, acc).value;
            && OthersUnchanged(l, r, {acc.takerAtaB, acc.makerAtaB, acc.vault, acc.takerAtaA, acc.maker, acc.escrow})
            && (forall m :: MintTotal(r, m) == MintTotal(l, m))
            && LamportTotal(r) == LamportTotal(l)
            && r[acc.vault] == Account(0, Empty) && r[acc.escrow] == Account(0, Empty)
  {
    var l1 := Deposit(l, acc).value;
    var receive := l[acc.escrow].data.escrow.receive;
    TransferCheckedConserves(l, acc.takerAtaB, acc.makerAtaB, acc.mintB, acc.taker, receive);
    var l2 := WithdrawAndCloseVault(l1, acc).value;
    var vaultAmount := TokenAmount(l1[acc.vault]);
    var l1' := TransferChecked(l1, acc.vault, acc.takerAtaA, acc.mintA, acc.escrow, vaultAmount).value;
    TransferCheckedConserves(l1, acc.vault, acc.takerAtaA, acc.mintA, acc.escrow, vaultAmount);
    DrainConserves(l1', acc.vault, acc.maker);
    assert l2[acc.escrow] == l[acc.escrow];
    var r := CloseEscrow(l2, acc).value;
    DrainConserves(l2, acc.escrow, acc.maker);
    assert r == Exchange(l, acc).value;
    forall i | 0 <= i < |l| && i !in {acc.takerAtaB, acc.makerAtaB, acc.vault, acc.takerAtaA, acc.maker, acc.escrow}
      ensures r[i] == l[i]
    {
      assert l1[i] == l[i] && l2[i] == l1[i];
    }
  }

  /**
   * A successful take conserves every mint and the lamports, writes no account outside the
   * instruction's, leaves the vault and the escrow record empty, and happens only for the escrow's
   * own maker and mints.
   */
  lemma TakeEffects(l: Ledger, acc: TakeAccounts, rent: nat)
    requires WellFormed(acc, l) && Take(l, acc, rent).Ok?
    ensures var r := Take(l, acc, rent).value;
            && OthersUnchanged(l, r, Touched(acc))
            && (forall m :: MintTotal(r, m) == MintTotal(l, m))
            && LamportTotal(r) == LamportTotal(l)
            && r[acc.vault] == Account(0, Empty) && r[acc.escrow] == Account(0, Empty)
    ensures && HoldsEscrow(l, acc)
            && l[acc.escrow].data.escrow.maker == acc.maker
            && l[acc.escrow].data.escrow.mintA == acc.mintA
            && l[acc.escrow].data.escrow.mintB == acc.mintB
  {
    var l1 := CreateTakerAtaA(l, acc, rent).value;
    CreateTakerAtaAConserves(l, acc, rent);
    ExchangeEffects(l1, acc);
    FrameTrans(l, l1, Take(l, acc, rent).value, {acc.taker, acc.takerAtaA},
               {acc.takerAtaB, acc.makerAtaB, acc.vault, acc.takerAtaA, acc.maker, acc.escrow});
  }

  /** Frames compose: what two steps leave alone, their sequence leaves alone. */
  lemma FrameTrans(l: Ledger, l': Ledger, l'': Ledger, s1: set<Address>, s2: set<Address>)
    requires OthersUnchanged(l, l', s1) && OthersUnchanged(l', l'', s2)
    ensures OthersUnchanged(l, l'', s1 + s2)
  {
  }

  // ---------------------------------------------------------------------------------------------
  // What a take does to each party

  /**
   * With distinct taker and maker and distinct mints, the exchange moves exactly `receive` of
   * mint B from the taker to the maker and the whole vault to the taker, and the maker collects
   * the lamports of the vault and of the escrow record.
   */
  lemma ExchangeMovesBalances(l: Ledger, acc: TakeAccounts)
    requires WellFormed(acc, l) && HoldsEscrow(l, acc) && acc.taker != acc.maker && acc.mintA != acc.mintB
    requires Exchange(l, acc).Ok?
    ensures var r := Exchange(l, acc).value;
            var e := l[acc.escrow].data.escrow;
            && AmountOf(r[acc.makerAtaB], acc.mintB) == AmountOf(l[acc.makerAtaB], acc.mintB) + e.receive
            && AmountOf(r[acc.takerAtaB], acc.mintB) + e.receive == AmountOf(l[acc.takerAtaB], acc.mintB)
            && AmountOf(r[acc.takerAtaA], acc.mintA) == AmountOf(l[acc.takerAtaA], acc.mintA) + TokenAmount(l[acc.vault])
            && r[acc.maker].lamports == l[acc.maker].lamports + l[acc.vault].lamports + l[acc.escrow].lamports
  {
    var l1 := Deposit(l, acc).value;
    var l2 := WithdrawAndCloseVault(l1, acc).value;
    assert l1[acc.escrow] == l[acc.escrow] && l1[acc.vault] == l[acc.vault] && l1[acc.maker] == l[acc.maker];
    assert l1[acc.takerAtaA] == l[acc.takerAtaA];
    assert l2[acc.escrow] == l1[acc.escrow];
    assert l2[acc.makerAtaB] == l1[acc.makerAtaB] && l2[acc.takerAtaB] == l1[acc.takerAtaB];
    assert Exchange(l, acc) == CloseEscrow(l2, acc);
  }

  /**
   * With distinct taker and maker and distinct mints: the maker's mint-B account gains exactly
   * `receive`, the taker's loses it, the taker's mint-A account gains the whole vault, and the
   * maker collects the lamports of the vault and of the escrow record.
   */
  lemma TakeMovesBalances(l: Ledger, acc: TakeAccounts, rent: nat)
    requires WellFormed(acc, l) && acc.taker != acc.maker && acc.mintA != acc.mintB && Take(l, acc, rent).Ok?
    ensures var r := Take(l, acc, rent).value;
            var e := l[acc.escrow].data.escrow;
            && AmountOf(r[acc.makerAtaB], acc.mintB) == AmountOf(l[acc.makerAtaB], acc.mintB) + e.receive
            && AmountOf(r[acc.takerAtaB], acc.mintB) + e.receive == AmountOf(l[acc.takerAtaB], acc.mintB)
            && AmountOf(r[acc.takerAtaA], acc.mintA) == AmountOf(l[acc.takerAtaA], acc.mintA) + TokenAmount(l[acc.vault])
            && r[acc.maker].lamports == l[acc.maker].lamports + l[acc.vault].lamports + l[acc.escrow].lamports
  {
    var l1 := CreateTakerAtaA(l, acc, rent).value;
    assert l1[acc.escrow] == l[acc.escrow] && l1[acc.vault] == l[acc.vault] && l1[acc.maker] == l[acc.maker];
    assert l1[acc.makerAtaB] == l[acc.makerAtaB] && l1[acc.takerAtaB] == l[acc.takerAtaB];
    assert AmountOf(l1[acc.takerAtaA], acc.mintA) == AmountOf(l[acc.takerAtaA], acc.mintA);
    ExchangeMovesBalances(l1, acc);
  }

  /** `take` when the taker is the maker: the mint-B payment goes from the account to itself. */
  lemma TakeBySelfKeepsMintB(l: Ledger, acc: TakeAccounts, rent: nat)
    requires WellFormed(acc, l) && acc.taker == acc.maker && acc.mintA != acc.mintB && Take(l, acc, rent).Ok?
    ensures AmountOf(Take(l, acc, rent).value[acc.takerAtaB], acc.mintB) == AmountOf(l[acc.takerAtaB], acc.mintB)
  {
    var l1 := CreateTakerAtaA(l, acc, rent).value;
    var l2 := Deposit(l1, acc).value;
    var l3 := WithdrawAndCloseVault(l2, acc).value;
    assert acc.takerAtaB == acc.makerAtaB;
    assert l1[acc.takerAtaB] == l[acc.takerAtaB];
    assert l2 == l1;
    assert AmountOf(l3[acc.takerAtaB], acc.mintB) == AmountOf(l2[acc.takerAtaB], acc.mintB);
  }

  /**
   * An escrow record that names another maker rejects the take with the `has_one` error. The
   * model checks the escrow record before the other accounts, so this holds for any other account.
   */
  lemma TakeRejectsOtherMaker(l: Ledger, acc: TakeAccounts, rent: nat)
    requires WellFormed(acc, l) && HoldsEscrow(l, acc) && l[acc.escrow].data.escrow.maker != acc.maker
    ensures Take(l, acc, rent) == Err(ConstraintHasOne)
  {
  }

  /** With the right maker, a mint other than the escrow record's rejects the take. */
  lemma TakeRejectsOtherMints(l: Ledger, acc: TakeAccounts, rent: nat)
    requires WellFormed(acc, l) && HoldsEscrow(l, acc) && l[acc.escrow].data.escrow.maker == acc.maker
    requires l[acc.escrow].data.escrow.mintA != acc.mintA || l[acc.escrow].data.escrow.mintB != acc.mintB
    ensures Take(l, acc, rent) == Err(ConstraintAddress)
  {
  }

  /** A missing `maker_ata_b` always makes the take fail: nobody can pay for it. */
  lemma TakeNeedsMakerAtaB(l: Ledger, acc: TakeAccounts, rent: nat)
    requires WellFormed(acc, l) && l[acc.makerAtaB].data.Empty?
    ensures Take(l, acc, rent).Err?
  {
  }
}
