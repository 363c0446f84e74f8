/**
 * The `Take` accounts as one mutable object: the ledger the instruction writes and the addresses it
 * was given. `deposit` and `withdraw_and_close_vault` are methods that make their token-program
 * calls one after the other and stop at the first error; each is proved to land on the ledger its
 * function in `EscrowTake` describes.
 */
module EscrowProgram {
  import opened Common
  import opened TokenLedger
  import opened EscrowTake

  class Take {
    var ledger: Ledger
    const accounts: TakeAccounts

    constructor (l: Ledger, acc: TakeAccounts)
      ensures ledger == l && accounts == acc
    {
      ledger := l;
      accounts := acc;
    }

    /** `Take::deposit`: one `transfer_checked` of `escrow.receive` from the taker to the maker. */
    method Deposit() returns (r: Outcome<TakeError>)
      requires WellFormed(accounts, ledger) && HoldsEscrow(ledger, accounts)
      modifies this
      ensures r == OutcomeOf(EscrowTake.Deposit(old(ledger), accounts))
      ensures ledger == StateAfter(EscrowTake.Deposit(old(ledger), accounts), old(ledger))
    {
      var receive := ledger[accounts.escrow].data.escrow.receive;
      var transfer := TransferChecked(ledger, accounts.takerAtaB, accounts.makerAtaB, accounts.mintB, accounts.taker, receive);
      if transfer.Err? {
        return Fail(Token(transfer.error));
      }
      ledger := transfer.value;
      r := Pass;
    }

    /**
     * `Take::withdraw_and_close_vault`: a `transfer_checked` of the vault's balance to the taker,
     * signed by the escrow record, then a `close_account` of the vault into the maker.
     */
    method WithdrawAndCloseVault() returns (r: Outcome<TakeError>)
      requires WellFormed(accounts, ledger)
      modifies this
      ensures r == OutcomeOf(EscrowTake.WithdrawAndCloseVault(old(ledger), accounts))
      ensures ledger == StateAfter(EscrowTake.WithdrawAndCloseVault(old(ledger), accounts), old(ledger))
    {
      var vaultAmount := TokenAmount(ledger[accounts.vault]);
      var transfer := TransferChecked(ledger, accounts.vault, accounts.takerAtaA, accounts.mintA, accounts.escrow, vaultAmount);
      if transfer.Err? {
        return Fail(Token(transfer.error));
      }
      var close := CloseAccount(transfer.value, accounts.vault, accounts.maker, accounts.escrow);
      if close.Err? {
        return Fail(Token(close.error));
      }
      ledger := close.value;
      r := Pass;
    }

    /**
     * The whole instruction: the account checks and `init_if_needed`, the two handler steps, and
     * the closing of the escrow record on exit. A failure at any point restores the ledger.
     */
    method Run(rent: nat) returns (r: Outcome<TakeError>)
      requires WellFormed(accounts, ledger)
      modifies this
      ensures r == OutcomeOf(EscrowTake.Take(old(ledger), accounts, rent))
      ensures ledger == StateAfter(EscrowTake.Take(old(ledger), accounts, rent), old(ledger))
    {
      var before := ledger;
      var check := CheckAccounts(ledger, accounts);
      if check.Fail? {
        assert EscrowTake.Take(before, accounts, rent) == Err(check.error);
        return check;
      }
      var created := CreateTakerAtaA(ledger, accounts, rent);
      if created.Err? {
        assert EscrowTake.Take(before, accounts, rent) == Err(created.error);
        return Fail(created.error);
      }
      ledger := created.value;
      assert ledger[accounts.escrow] == before[accounts.escrow];
      r := Exchange();
      if r.Fail? {
        ledger := before;
      }
    }

    /** The handler's two steps and the closing of the escrow record on exit; stops at the first error. */
    method Exchange() returns (r: Outcome<TakeError>)
      requires WellFormed(accounts, ledger) && HoldsEscrow(ledger, accounts)
      modifies this
      ensures r == OutcomeOf(EscrowTake.Exchange(old(ledger), accounts))
      ensures r.Pass? ==> ledger == EscrowTake.Exchange(old(ledger), accounts).value
    {
      r := Deposit();
      if r.Fail? {
        return;
      }
      r := CloseOut();
    }

    /** `withdraw_and_close_vault`, then the closing of the escrow record when the handler returns. */
    method CloseOut() returns (r: Outcome<TakeError>)
      requires WellFormed(accounts, ledger) && HoldsEscrow(ledger, accounts)
      modifies this
      ensures r == OutcomeOf(EscrowTake.CloseOut(old(ledger), accounts))
      ensures r.Pass? ==> ledger == EscrowTake.CloseOut(old(ledger), accounts).value
    {
      ghost var before := ledger;
      r := WithdrawAndCloseVault();
      if r.Fail? {
        return;
      }
      assert ledger[accounts.escrow] == before[accounts.escrow];
      var closed := CloseEscrow(ledger, accounts);
      if closed.Err? {
        return Fail(closed.error);
      }
      ledger := closed.value;
    }
  }
}
