/**
 The account ("cuenta"): a balance and a history of movements. Deposits and
 withdrawals validate their amount against fixed rules before touching the
 state; a failed operation reports one error kind and leaves the account as it
 was. The current day is an explicit parameter of every operation that needs it.
 */
module Accounts {
  import opened Movements

  /** Maximum number of deposits the account accepts (counted over the whole history). */
  const MaxDeposits: nat := 3

  /** Maximum total amount that may be withdrawn on one day. */
  const DailyWithdrawalLimit: int := 1000

  /** The four ways an operation can be refused. */
  datatype Error =
    | NegativeAmount          // the amount is zero or negative
    | MaxDepositsExceeded     // the history already holds `MaxDeposits` deposits
    | InsufficientBalance     // the withdrawal exceeds the balance
    | DailyLimitExceeded      // the withdrawal exceeds what is left of today's allowance

  datatype Account = Account(balance: int, movements: History)

  /** Outcome of a validated operation: the new account, or why it was refused. */
  datatype Result = Ok(account: Account) | Err(error: Error)

  /** State of the account after an operation whose outcome is `r`: a refusal changes nothing. */
  function After(a: Account, r: Result): (b: Account)
    ensures r.Err? ==> b == a
    ensures r.Ok? ==> b == r.account
  {
    match r
    case Ok(next) => next
    case Err(_) => a
  }

  // ---------------------------------------------------------------------------
  // Construction, fixture setters and the unvalidated append (no validation)

  /** A new account: zero balance, empty history. */
  function New(): (a: Account)
    ensures a.balance == 0 && a.movements == []
    ensures DepositCount(a.movements) == 0
    ensures forall d :: AmountWithdrawnOn(a.movements, d) == 0
  {
    Account(0, [])
  }

  /** A new account with a given starting balance and an empty history. */
  function WithInitialBalance(initial: int): (a: Account)
    ensures a.balance == initial && a.movements == []
    ensures initial == 0 ==> a == New()
  {
    Account(initial, [])
  }

  /** Replaces the history; the balance is kept. */
  function SetMovements(a: Account, ms: History): (b: Account)
    ensures b.balance == a.balance && b.movements == ms
    ensures ms == a.movements ==> b == a
  {
    a.(movements := ms)
  }

  /** Overrides the balance; the history is kept. */
  function SetBalance(a: Account, balance: int): (b: Account)
    ensures b.balance == balance && b.movements == a.movements
    ensures balance == a.balance ==> b == a
  {
    a.(balance := balance)
  }

  /** Appends a movement with the given fields, unvalidated; the balance is kept. */
  function AddMovement(a: Account, date: Date, amount: int, isDeposit: bool): (b: Account)
    ensures b.balance == a.balance
    ensures |b.movements| == |a.movements| + 1
    ensures b.movements[..|a.movements|] == a.movements
    ensures b.movements[|a.movements|] == Movement(date, amount, isDeposit)
  {
    a.(movements := a.movements + [Movement(date, amount, isDeposit)])
  }

  /** Records a movement in the account: it joins the history and moves the balance by its effect. */
  function Record(a: Account, m: Movement): (b: Account)
    ensures b.movements == a.movements + [m]
    ensures m.isDeposit ==> b.balance == a.balance + m.amount
    ensures !m.isDeposit ==> b.balance == a.balance - m.amount
  {
    Account(a.balance + m.Effect(), a.movements + [m])
  }

  // ---------------------------------------------------------------------------
  // Validated operations

  /** Deposit ("poner") of `amount` on day `today`. */
  function Deposit(a: Account, amount: int, today: Date): (r: Result)
    // checked in this order: the amount first, then the number of deposits
    ensures amount <= 0 ==> r == Err(NegativeAmount)
    ensures amount > 0 ==> (r == Err(MaxDepositsExceeded) <==> DepositCount(a.movements) >= MaxDeposits)
    ensures r.Ok? <==> amount > 0 && DepositCount(a.movements) < MaxDeposits
    // on success: one deposit dated today is appended and the balance grows by the amount
    ensures r.Ok? ==> r.account.balance == a.balance + amount
    ensures r.Ok? ==> r.account.movements == a.movements + [Movement(today, amount, true)]
    ensures r.Ok? ==> DepositCount(r.account.movements) == DepositCount(a.movements) + 1
    ensures r.Ok? ==> forall d :: AmountWithdrawnOn(r.account.movements, d) == AmountWithdrawnOn(a.movements, d)
  {
    if amount <= 0 then Err(NegativeAmount)
    else if DepositCount(a.movements) >= MaxDeposits then Err(MaxDepositsExceeded)
    else
      var m := Movement(today, amount, true);
      DepositCountAppend(a.movements, m);
      assert forall d :: AmountWithdrawnOn(a.movements + [m], d) == AmountWithdrawnOn(a.movements, d) by {
        forall d ensures AmountWithdrawnOn(a.movements + [m], d) == AmountWithdrawnOn(a.movements, d) {
          AmountWithdrawnOnAppend(a.movements, m, d);
        }
      }
      Ok(Record(a, m))
  }

  /** Withdrawal ("sacar") of `amount` on day `today`. */
  function Withdraw(a: Account, amount: int, today: Date): (r: Result)
    // checked in this order: the amount, then the balance, then today's allowance
    ensures amount <= 0 ==> r == Err(NegativeAmount)
    ensures amount > 0 && a.balance < amount ==> r == Err(InsufficientBalance)
    ensures amount > 0 && a.balance >= amount ==>
      (r == Err(DailyLimitExceeded) <==> AmountWithdrawnOn(a.movements, today) + amount > DailyWithdrawalLimit)
    ensures r.Ok? <==>
      amount > 0 && amount <= a.balance && AmountWithdrawnOn(a.movements, today) + amount <= DailyWithdrawalLimit
    // on success: one withdrawal dated today is appended and the balance shrinks by the amount
    ensures r.Ok? ==> r.account.balance == a.balance - amount >= 0
    ensures r.Ok? ==> r.account.movements == a.movements + [Movement(today, amount, false)]
    ensures r.Ok? ==> AmountWithdrawnOn(r.account.movements, today) == AmountWithdrawnOn(a.movements, today) + amount
    ensures r.Ok? ==> AmountWithdrawnOn(r.account.movements, today) <= DailyWithdrawalLimit
    ensures r.Ok? ==> forall d :: d != today ==> AmountWithdrawnOn(r.account.movements, d) == AmountWithdrawnOn(a.movements, d)
    ensures r.Ok? ==> DepositCount(r.account.movements) == DepositCount(a.movements)
  {
    if amount <= 0 then Err(NegativeAmount)
    else if a.balance - amount < 0 then Err(InsufficientBalance)
    else
      var limit := DailyWithdrawalLimit - AmountWithdrawnOn(a.movements, today);
      if amount > limit then Err(DailyLimitExceeded)
      else
        var m := Movement(today, amount, false);
        DepositCountAppend(a.movements, m);
        assert forall d :: (AmountWithdrawnOn(a.movements + [m], d) ==
            AmountWithdrawnOn(a.movements, d) + (if d == today then amount else 0)) by {
          forall d ensures (AmountWithdrawnOn(a.movements + [m], d) ==
              AmountWithdrawnOn(a.movements, d) + (if d == today then amount else 0)) {
            AmountWithdrawnOnAppend(a.movements, m, d);
          }
        }
        Ok(Record(a, m))
  }

  // ---------------------------------------------------------------------------
  // Properties of the operations

  /**
   The deposit limit counts every deposit in the history, not only today's: once
   three deposits are recorded, a deposit fails on every day, later days included.
   */
  lemma DepositLimitIgnoresDate(a: Account, amount: int, today: Date)
    requires amount > 0
    requires DepositCount(a.movements) >= MaxDeposits
    ensures Deposit(a, amount, today) == Err(MaxDepositsExceeded)
  {
  }

  /** A withdrawal that fails both the balance and the daily checks reports the balance. */
  lemma BalanceCheckedBeforeDailyLimit(a: Account, amount: int, today: Date)
    requires 0 < amount
    requires a.balance < amount
    requires AmountWithdrawnOn(a.movements, today) + amount > DailyWithdrawalLimit
    ensures Withdraw(a, amount, today) == Err(InsufficientBalance)
  {
  }

  /** Deposits added by the unvalidated append count toward the deposit limit like any other. */
  lemma AddedDepositsCount(a: Account, date: Date, amount: int)
    ensures DepositCount(AddMovement(a, date, amount, true).movements) == DepositCount(a.movements) + 1
    ensures DepositCount(a.movements) + 1 >= MaxDeposits ==>
      forall x, d :: x > 0 ==> Deposit(AddMovement(a, date, amount, true), x, d).Err?
  {
    DepositCountAppend(a.movements, Movement(date, amount, true));
  }

  /**
   Recording a movement is the unvalidated append of the same three fields
   together with the balance change the movement carries.
   */
  lemma RecordIsAppendWithEffect(a: Account, m: Movement)
    ensures Record(a, m) == AddMovement(SetBalance(a, a.balance + m.Effect()), m.date, m.amount, m.isDeposit)
  {
  }

  /** Withdrawals added by the unvalidated append on `today` use up today's allowance. */
  lemma AddedWithdrawalUsesAllowance(a: Account, today: Date, amount: int)
    ensures AmountWithdrawnOn(AddMovement(a, today, amount, false).movements, today) ==
      AmountWithdrawnOn(a.movements, today) + amount
  {
    AmountWithdrawnOnAppend(a.movements, Movement(today, amount, false), today);
  }
}
