# Monedero account model

A Dafny model of the account ("Cuenta") of the monedero wallet: an account holds a
balance and an ordered history of movements. A deposit ("poner") or a withdrawal
("sacar") first validates its amount, then records one movement dated the current
day and adjusts the balance. A refused operation reports one error kind and leaves
the account unchanged. The rules, in the order the code checks them:

- deposit: the amount must be positive; then the history must hold fewer than 3 deposits;
- withdrawal: the amount must be positive; then it must not exceed the balance; then the
  amount already withdrawn today plus this amount must not exceed 1000.

The account also has an unvalidated append of a movement (`agregarMovimiento`), and
fixture entry points that bypass every rule: a constructor with a starting balance, a
balance setter and a history setter.

Layout:

- `movements.dfy`, module `Movements`: the movement record, the history, and the
  aggregates over it. These are the deposit count, the amount withdrawn on a day and
  the net flow. The module also holds loop versions of the two stream pipelines.
- `accounts.dfy`, module `Accounts`: the account, its error kinds, the constructors,
  the setters, and the validated `Deposit` and `Withdraw`.
- `ledger.dfy`, module `Ledger`: arbitrary sequences of requests against one account,
  and the invariants they keep.
- `scenarios.dfy`, module `Scenarios`: the unit-test scenarios as lemmas.

Modelling choices:

- The current day is a parameter (`today`) instead of a read of the system clock.
  Days are integers; only equality between them is used, like `LocalDate.equals`.
- Amounts and balances are unbounded integers instead of `double`.
- Exceptions are the `Accounts.Error` kinds inside an `Accounts.Result`. The state of the
  mutable account after a call, with the exception caught, is `Accounts.After`.
- The movement class (`Movimiento`) is not part of this model. Its `agregateA` step is
  modelled as `Accounts.Record`: it appends the movement, adds the amount to the balance
  for a deposit and subtracts it for a withdrawal. The unit tests pin only the deposit
  effect on the balance (`MonederoTest.java:26-27`, `:39-42`). The withdrawal effect and
  the append to the history are assumed.
- The deposit limit follows what the code computes, not what its wording says. The comment
  and the error message at `Cuenta.java:34-35` speak of a limit of 3 daily deposits, and the
  test name at `MonederoTest.java:46` says "on the same day". But the count at
  `Cuenta.java:34` filters only on the kind of movement, not on its date. So once 3 deposits
  are recorded, every later deposit fails, on any day. `Accounts.DepositLimitIgnoresDate`,
  `Scenarios.FourthDepositNextDay` and `Ledger.AtMostThreeDepositsEver` state this.

## Model

| member | source | states |
|---|---|---|
| Movements.DepositCount | src/main/java/dds/monedero/model/Cuenta.java:34 | the filter-and-count stream over the whole history, with no date filter: never more than the number of movements, 0 when no movement is a deposit, all of them when every movement is |
| Movements.AmountWithdrawnOn | src/main/java/dds/monedero/model/Cuenta.java:63-68 | the sum of the amounts of the non-deposit movements dated the given day: 0 when no withdrawal has that date, and non-negative when every amount is positive |
| Movements.DepositCountIsCardinality | src/main/java/dds/monedero/model/Cuenta.java:34 | the recursive deposit count equals the number of positions in the history that hold a deposit |
| Movements.DepositCountZeroIff | src/main/java/dds/monedero/model/Cuenta.java:34 | the deposit count is zero exactly when no movement of the history is a deposit |
| Movements.DepositCountAppend | src/main/java/dds/monedero/model/Cuenta.java:34 | appending a movement raises the count by one if it is a deposit, otherwise leaves it |
| Movements.DepositCountConcat | src/main/java/dds/monedero/model/Cuenta.java:34 | the count of a concatenated history is the sum of the counts of its parts |
| Movements.CountDeposits | src/main/java/dds/monedero/model/Cuenta.java:34 | the filter-and-count stream over the history, as a loop, yields the deposit count |
| Movements.SumWithdrawnOn | src/main/java/dds/monedero/model/Cuenta.java:63-68 | the filter-and-sum stream, as a loop, yields the sum of the amounts of the withdrawals dated on the given day |
| Movements.AmountWithdrawnOnEmpty | src/main/java/dds/monedero/model/Cuenta.java:63-68 | nothing is withdrawn on any day in an empty history |
| Movements.AmountWithdrawnOnAppend | src/main/java/dds/monedero/model/Cuenta.java:63-68 | appending a withdrawal dated d adds its amount to d's total; appending a deposit or a movement of another day changes nothing |
| Movements.AmountWithdrawnOnConcat | src/main/java/dds/monedero/model/Cuenta.java:63-68 | a day's total over a concatenated history is the sum of the totals of its parts |
| Movements.AmountWithdrawnOnZeroIff | src/main/java/dds/monedero/model/Cuenta.java:63-68 | with positive amounts, a day's total is zero exactly when no withdrawal is dated that day |
| Movements.NetFlowAppend | src/main/java/dds/monedero/model/Cuenta.java:38 | appending a movement moves the net flow by plus its amount for a deposit and minus its amount for a withdrawal |
| Movements.NetFlowConcat | src/main/java/dds/monedero/model/Cuenta.java:38 | the net flow of a concatenated history is the sum of the net flows of its parts |
| Accounts.New | src/main/java/dds/monedero/model/Cuenta.java:17-19 | a new account has balance 0, an empty history, no deposits and nothing withdrawn on any day |
| Accounts.WithInitialBalance | src/main/java/dds/monedero/model/Cuenta.java:21-23 | the starting balance is the given amount and the history is empty; a start of 0 is the plain new account |
| Accounts.SetMovements | src/main/java/dds/monedero/model/Cuenta.java:25-27 | the history is replaced and the balance is kept |
| Accounts.SetBalance | src/main/java/dds/monedero/model/Cuenta.java:78-80 | only the balance changes; the history is kept |
| Accounts.AddMovement | src/main/java/dds/monedero/model/Cuenta.java:58-61 | exactly one movement with the given fields is appended, without validation; earlier movements and the balance are kept |
| Accounts.Record | src/main/java/dds/monedero/model/Cuenta.java:38 | recording a movement appends it and adds its amount to the balance for a deposit, or subtracts it for a withdrawal |
| Accounts.Deposit | src/main/java/dds/monedero/model/Cuenta.java:29-39 | a non-positive amount is refused first. Otherwise the deposit is refused exactly when the history holds 3 or more deposits. On success it appends one deposit dated today, raises the balance by the amount, raises the deposit count by one and changes no day's withdrawn total |
| Accounts.Withdraw | src/main/java/dds/monedero/model/Cuenta.java:41-56 | a non-positive amount is refused first, then an amount above the balance. Otherwise the withdrawal is refused exactly when today's total plus the amount exceeds 1000. On success it appends one withdrawal dated today and lowers the balance by the amount, which leaves it non-negative. Today's total grows by the amount and stays within 1000; other days and the deposit count are unchanged |
| Accounts.DepositLimitIgnoresDate | src/main/java/dds/monedero/model/Cuenta.java:34-36 | once the history holds 3 deposits, a positive deposit on any day is refused for the deposit limit |
| Accounts.BalanceCheckedBeforeDailyLimit | src/main/java/dds/monedero/model/Cuenta.java:46-54 | a withdrawal that fails both the balance check and the daily check is reported as insufficient balance |
| Accounts.RecordIsAppendWithEffect | src/main/java/dds/monedero/model/Cuenta.java:58-61 | recording a movement equals the unvalidated append of its date, amount and kind, plus the balance change the movement carries |
| Accounts.AddedDepositsCount | src/main/java/dds/monedero/model/Cuenta.java:58-61 | a deposit appended by the unvalidated append counts toward the deposit limit, and can make every later deposit fail |
| Accounts.AddedWithdrawalUsesAllowance | src/main/java/dds/monedero/model/Cuenta.java:58-61 | a withdrawal appended by the unvalidated append uses up that day's withdrawal allowance |
| Ledger.PerformStep | src/main/java/dds/monedero/model/Cuenta.java:29-56 | each deposit or withdrawal either changes nothing or records exactly one movement with a positive amount |
| Ledger.RunExtendsHistory | src/main/java/dds/monedero/model/Cuenta.java:29-56 | any sequence of operations only appends to the history, at most one movement per operation |
| Ledger.RunBalanceIsLedger | src/main/java/dds/monedero/model/Cuenta.java:29-56 | after any sequence of operations the balance has moved by exactly the deposits minus the withdrawals that were appended |
| Ledger.RunSplitsTotals | src/main/java/dds/monedero/model/Cuenta.java:29-68 | after any sequence of operations, the deposit count, the net flow and every day's withdrawn total are their values before the run plus their values over the appended movements |
| Ledger.FromFreshAccount | src/main/java/dds/monedero/model/Cuenta.java:21-56 | from a fresh account, the balance is the starting balance plus all deposits minus all withdrawals |
| Ledger.RunKeepsAmountsPositive | src/main/java/dds/monedero/model/Cuenta.java:29-56 | the validated operations only record movements with positive amounts |
| Ledger.RunKeepsBalanceNonNegative | src/main/java/dds/monedero/model/Cuenta.java:46-48 | a non-negative balance stays non-negative through any sequence of operations |
| Ledger.RunKeepsDepositCap | src/main/java/dds/monedero/model/Cuenta.java:34-36 | a history with at most 3 deposits never gets more, whatever the days of the deposits |
| Ledger.RunKeepsDailyCap | src/main/java/dds/monedero/model/Cuenta.java:49-54 | if no day's withdrawals exceed 1000, none ever do |
| Ledger.AtMostThreeDepositsEver | src/main/java/dds/monedero/model/Cuenta.java:34-36 | a fresh account accepts at most 3 deposits over its whole life |
| Scenarios.DepositIntoNewAccount | src/test/java/dds/monedero/model/MonederoTest.java:23-28 | depositing 1500 into a new account succeeds and leaves balance 1500 |
| Scenarios.NegativeDeposit | src/test/java/dds/monedero/model/MonederoTest.java:30-34 | depositing -1500 is refused as a negative amount |
| Scenarios.ThreeDepositsAreTaken | src/test/java/dds/monedero/model/MonederoTest.java:36-43 | deposits of 1500, 456 and 1900 are all accepted, with balance 3856 and 3 deposits recorded |
| Scenarios.FourthDepositSameDay | src/test/java/dds/monedero/model/MonederoTest.java:45-54 | a fourth deposit on the same day is refused for the deposit limit |
| Scenarios.FourthDepositNextDay | src/main/java/dds/monedero/model/Cuenta.java:34-36 | a fourth deposit on the following day is refused as well |
| Scenarios.WithdrawMoreThanBalance | src/test/java/dds/monedero/model/MonederoTest.java:57-64 | with balance 90, withdrawing 1001 is refused for insufficient balance |
| Scenarios.WithdrawMoreThanDailyLimit | src/test/java/dds/monedero/model/MonederoTest.java:66-73 | with balance 5000, a first withdrawal of 1001 is refused for the daily limit |
| Scenarios.NegativeWithdrawal | src/test/java/dds/monedero/model/MonederoTest.java:75-79 | withdrawing -500 is refused as a negative amount |

## Left out

- Floating point: amounts and balances are `double` in the code and unbounded integers here. Rounding is not modelled, so every comparison is exact.
- The system clock: `LocalDate.now()` is replaced by the `today` parameter of each operation.
- Accounts.Withdraw: `sacar` reads the clock twice, once for the daily check (`Cuenta.java:49`) and once for the date of the new movement (`Cuenta.java:55`). The model uses a single `today` for both, so it assumes both reads give the same day. When a call spans midnight, the code can check day D's total but record the withdrawal on day D+1. That can push D+1's total past 1000, which `Ledger.RunKeepsDailyCap` rules out for the model.
- The exception classes and their message texts: each exception is one `Accounts.Error` kind.
- The plain accessors (`getSaldo`, `getMovimientos`): they are the `balance` and `movements` fields of `Accounts.Account`.
- Aliasing of the mutable list that `getMovimientos` returns and `setMovimientos` takes. Changing that list from outside is not an account operation.
- The movement class: its source is not part of this model. Its `agregateA` step is modelled as `Accounts.Record`. The unit tests pin only its deposit effect on the balance (`MonederoTest.java:26-27`, `:39-42`). The withdrawal effect and the append to the history are assumed.
