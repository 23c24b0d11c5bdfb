/**
 The account's unit-test scenarios, stated for an arbitrary day `today`.
 Each test starts from a new account.
 */
module Scenarios {
  import opened Movements
  import opened Accounts

  /** Depositing 1500 into a new account leaves a balance of 1500. */
  lemma DepositIntoNewAccount(today: Date)
    ensures Deposit(New(), 1500, today).Ok?
    ensures Deposit(New(), 1500, today).account.balance == 1500
  {
  }

  /** A negative deposit is refused. */
  lemma NegativeDeposit(today: Date)
    ensures Deposit(New(), -1500, today) == Err(NegativeAmount)
  {
  }

  /** Three deposits of 1500, 456 and 1900 are all accepted and add up to 3856. */
  lemma ThreeDepositsAreTaken(today: Date)
    ensures var r1 := Deposit(New(), 1500, today);
      && r1.Ok?
      && var r2 := Deposit(r1.account, 456, today);
      && r2.Ok?
      && var r3 := Deposit(r2.account, 1900, today);
      && r3.Ok?
      && r3.account.balance == 3856
      && DepositCount(r3.account.movements) == 3
  {
  }

  /** A fourth deposit on the same day is refused. */
  lemma FourthDepositSameDay(today: Date)
    ensures var r1 := Deposit(New(), 1500, today);
      var r2 := Deposit(r1.account, 456, today);
      var r3 := Deposit(r2.account, 1900, today);
      && r3.Ok?
      && Deposit(r3.account, 245, today) == Err(MaxDepositsExceeded)
  {
    ThreeDepositsAreTaken(today);
  }

  /**
   A fourth deposit on a later day is refused as well: the limit counts the
   deposits of every day.
   */
  lemma FourthDepositNextDay(today: Date)
    ensures var r1 := Deposit(New(), 1500, today);
      var r2 := Deposit(r1.account, 456, today);
      var r3 := Deposit(r2.account, 1900, today);
      && r3.Ok?
      && Deposit(r3.account, 245, today + 1) == Err(MaxDepositsExceeded)
  {
    ThreeDepositsAreTaken(today);
  }

  /** With a balance of 90, withdrawing 1001 is refused for the balance, not the daily limit. */
  lemma WithdrawMoreThanBalance(today: Date)
    ensures Withdraw(SetBalance(New(), 90), 1001, today) == Err(InsufficientBalance)
  {
  }

  /** With a balance of 5000, a first withdrawal of 1001 passes the daily limit. */
  lemma WithdrawMoreThanDailyLimit(today: Date)
    ensures Withdraw(SetBalance(New(), 5000), 1001, today) == Err(DailyLimitExceeded)
  {
  }

  /** A negative withdrawal is refused. */
  lemma NegativeWithdrawal(today: Date)
    ensures Withdraw(New(), -500, today) == Err(NegativeAmount)
  {
  }
}
