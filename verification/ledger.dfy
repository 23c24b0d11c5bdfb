/**
 Sequences of deposit and withdrawal requests made against one account, each on
 its own day. A refused request leaves the account unchanged and the next one
 proceeds, as when a caller catches the error and carries on. The lemmas state
 what holds of the account after any such sequence.
 */
module Ledger {
  import opened Movements
  import opened Accounts

  datatype Request = Put(amount: int, day: Date) | Take(amount: int, day: Date)

  function Perform(a: Account, req: Request): (r: Result) {
    match req
    case Put(amount, day) => Deposit(a, amount, day)
    case Take(amount, day) => Withdraw(a, amount, day)
  }

  /** The account after the requests `reqs`, in order. */
  function Run(a: Account, reqs: seq<Request>): (b: Account)
    decreases |reqs|
  {
    if |reqs| == 0 then a
    else
      var prev := Run(a, reqs[..|reqs| - 1]);
      After(prev, Perform(prev, reqs[|reqs| - 1]))
  }

  /** The movements appended by a run, in order. */
  function Appended(a: Account, reqs: seq<Request>): (added: History)
    requires |a.movements| <= |Run(a, reqs).movements|
  {
    Run(a, reqs).movements[|a.movements|..]
  }

  /** One request either changes nothing or records exactly one positive movement. */
  lemma PerformStep(a: Account, req: Request)
    ensures var b := After(a, Perform(a, req));
      || b == a
      || (exists m: Movement :: m.amount > 0 && b == Record(a, m))
  {
    var r := Perform(a, req);
    if r.Ok? {
      match req
      case Put(amount, day) => assert r.account == Record(a, Movement(day, amount, true));
      case Take(amount, day) => assert r.account == Record(a, Movement(day, amount, false));
    }
  }

  /** A run only appends to the history, at most one movement per request. */
  lemma {:induction false} RunExtendsHistory(a: Account, reqs: seq<Request>)
    ensures a.movements <= Run(a, reqs).movements
    ensures |Run(a, reqs).movements| <= |a.movements| + |reqs|
    decreases |reqs|
  {
    if |reqs| > 0 {
      var b := Run(a, reqs[..|reqs| - 1]);
      RunExtendsHistory(a, reqs[..|reqs| - 1]);
      PerformStep(b, reqs[|reqs| - 1]);
    }
  }

  /** The balance moves by exactly the net flow of the movements the run appended. */
  lemma {:induction false} RunBalanceIsLedger(a: Account, reqs: seq<Request>)
    ensures |a.movements| <= |Run(a, reqs).movements|
    ensures Run(a, reqs).balance == a.balance + NetFlow(Appended(a, reqs))
    decreases |reqs|
  {
    RunExtendsHistory(a, reqs);
    if |reqs| == 0 {
      assert Appended(a, reqs) == [];
    } else {
      var init := reqs[..|reqs| - 1];
      var b := Run(a, init);
      RunBalanceIsLedger(a, init);
      RunExtendsHistory(a, init);
      var c := After(b, Perform(b, reqs[|reqs| - 1]));
      PerformStep(b, reqs[|reqs| - 1]);
      if c != b {
        var m: Movement :| m.amount > 0 && c == Record(b, m);
        assert Appended(a, reqs) == Appended(a, init) + [m];
        NetFlowAppend(Appended(a, init), m);
      }
    }
  }

  /**
   Every aggregate of the history after a run splits into its value before the run
   plus its value over the movements the run appended.
   */
  lemma RunSplitsTotals(a: Account, reqs: seq<Request>)
    ensures |a.movements| <= |Run(a, reqs).movements|
    ensures DepositCount(Run(a, reqs).movements) ==
      DepositCount(a.movements) + DepositCount(Appended(a, reqs))
    ensures NetFlow(Run(a, reqs).movements) == NetFlow(a.movements) + NetFlow(Appended(a, reqs))
    ensures forall d :: (AmountWithdrawnOn(Run(a, reqs).movements, d) ==
      AmountWithdrawnOn(a.movements, d) + AmountWithdrawnOn(Appended(a, reqs), d))
  {
    RunExtendsHistory(a, reqs);
    var ms := Run(a, reqs).movements;
    assert ms == a.movements + Appended(a, reqs);
    DepositCountConcat(a.movements, Appended(a, reqs));
    NetFlowConcat(a.movements, Appended(a, reqs));
    forall d ensures AmountWithdrawnOn(ms, d) ==
        AmountWithdrawnOn(a.movements, d) + AmountWithdrawnOn(Appended(a, reqs), d) {
      AmountWithdrawnOnConcat(a.movements, Appended(a, reqs), d);
    }
  }

  /**
   Starting from an account with an empty history, the balance is the starting
   balance plus all deposits minus all withdrawals.
   */
  lemma FromFreshAccount(initial: int, reqs: seq<Request>)
    ensures Run(WithInitialBalance(initial), reqs).balance ==
      initial + NetFlow(Run(WithInitialBalance(initial), reqs).movements)
  {
    RunBalanceIsLedger(WithInitialBalance(initial), reqs);
  }

  /** Every movement a run records has a positive amount. */
  lemma {:induction false} RunKeepsAmountsPositive(a: Account, reqs: seq<Request>)
    requires AllPositive(a.movements)
    ensures AllPositive(Run(a, reqs).movements)
    decreases |reqs|
  {
    if |reqs| > 0 {
      var b := Run(a, reqs[..|reqs| - 1]);
      RunKeepsAmountsPositive(a, reqs[..|reqs| - 1]);
      PerformStep(b, reqs[|reqs| - 1]);
    }
  }

  /** A non-negative balance never becomes negative through the validated operations. */
  lemma {:induction false} RunKeepsBalanceNonNegative(a: Account, reqs: seq<Request>)
    requires a.balance >= 0
    ensures Run(a, reqs).balance >= 0
    decreases |reqs|
  {
    if |reqs| > 0 {
      RunKeepsBalanceNonNegative(a, reqs[..|reqs| - 1]);
    }
  }

  /**
   The deposit count never passes the limit: an account that starts with at most
   three deposits never holds more, whatever the days of the requests.
   */
  lemma {:induction false} RunKeepsDepositCap(a: Account, reqs: seq<Request>)
    requires DepositCount(a.movements) <= MaxDeposits
    ensures DepositCount(Run(a, reqs).movements) <= MaxDeposits
    decreases |reqs|
  {
    if |reqs| > 0 {
      RunKeepsDepositCap(a, reqs[..|reqs| - 1]);
    }
  }

  /** No day's withdrawals ever pass the daily limit, once they start within it. */
  lemma {:induction false} RunKeepsDailyCap(a: Account, reqs: seq<Request>)
    requires forall d :: AmountWithdrawnOn(a.movements, d) <= DailyWithdrawalLimit
    ensures forall d :: AmountWithdrawnOn(Run(a, reqs).movements, d) <= DailyWithdrawalLimit
    decreases |reqs|
  {
    if |reqs| > 0 {
      RunKeepsDailyCap(a, reqs[..|reqs| - 1]);
    }
  }

  /** A fresh account accepts at most three deposits in its whole life. */
  lemma AtMostThreeDepositsEver(initial: int, reqs: seq<Request>)
    ensures DepositCount(Run(WithInitialBalance(initial), reqs).movements) <= MaxDeposits
  {
    RunKeepsDepositCap(WithInitialBalance(initial), reqs);
  }
}
