/**
 A movement is one recorded deposit or withdrawal of an account: the day it
 happened, its amount and whether it was a deposit. This module also holds the
 two aggregates the account computes over its history: how many deposits it
 holds, and how much was withdrawn on a given day.
 */
module Movements {

  /** A calendar day. Only equality between days is ever used. */
  type Date = int

  datatype Movement = Movement(date: Date, amount: int, isDeposit: bool) {

    /** True of a withdrawal made on day `d`. */
    predicate IsWithdrawalOn(d: Date) {
      !isDeposit && date == d
    }

    /** What the movement does to the balance: `+amount` for a deposit, `-amount` otherwise. */
    function Effect(): (e: int) {
      if isDeposit then amount else -amount
    }
  }

  /** The history of an account, oldest movement first. */
  type History = seq<Movement>

  /** Every movement of the history carries a strictly positive amount. */
  predicate AllPositive(ms: History) {
    forall i :: 0 <= i < |ms| ==> ms[i].amount > 0
  }

  /** Number of deposits in the whole history, whatever their date. */
  function DepositCount(ms: History): (n: nat)
    ensures n <= |ms|
    ensures (forall i :: 0 <= i < |ms| ==> !ms[i].isDeposit) ==> n == 0
    ensures (forall i :: 0 <= i < |ms| ==> ms[i].isDeposit) ==> n == |ms|
  {
    if |ms| == 0 then 0
    else DepositCount(ms[..|ms| - 1]) + (if ms[|ms| - 1].isDeposit then 1 else 0)
  }

  /** Sum of the amounts of the withdrawals dated `d`. */
  function AmountWithdrawnOn(ms: History, d: Date): (total: int)
    ensures (forall i :: 0 <= i < |ms| ==> !ms[i].IsWithdrawalOn(d)) ==> total == 0
    ensures AllPositive(ms) ==> total >= 0
  {
    if |ms| == 0 then 0
    else
      var last := ms[|ms| - 1];
      AmountWithdrawnOn(ms[..|ms| - 1], d) + (if last.IsWithdrawalOn(d) then last.amount else 0)
  }

  /** Sum of the effects of all movements: deposits minus withdrawals. */
  function NetFlow(ms: History): (net: int) {
    if |ms| == 0 then 0 else NetFlow(ms[..|ms| - 1]) + ms[|ms| - 1].Effect()
  }

  /** The positions of the deposits in the history. */
  function DepositPositions(ms: History): (positions: set<nat>) {
    set i: nat | i < |ms| && ms[i].isDeposit
  }

  // ---------------------------------------------------------------------------
  // Deposit count

  lemma DepositCountAppend(ms: History, m: Movement)
    ensures DepositCount(ms + [m]) == DepositCount(ms) + (if m.isDeposit then 1 else 0)
  {
    assert (ms + [m])[..|ms|] == ms;
  }

  lemma {:induction false} DepositCountConcat(xs: History, ys: History)
    ensures DepositCount(xs + ys) == DepositCount(xs) + DepositCount(ys)
    decreases |ys|
  {
    if |ys| == 0 {
      assert xs + ys == xs;
    } else {
      var init, last := ys[..|ys| - 1], ys[|ys| - 1];
      assert ys == init + [last];
      assert xs + ys == (xs + init) + [last];
      DepositCountConcat(xs, init);
      DepositCountAppend(xs + init, last);
      DepositCountAppend(init, last);
    }
  }

  /** The recursive count agrees with the number of deposit positions. */
  lemma {:induction false} DepositCountIsCardinality(ms: History)
    ensures DepositCount(ms) == |DepositPositions(ms)|
    decreases |ms|
  {
    if |ms| == 0 {
      assert DepositPositions(ms) == {};
    } else {
      var init, last := ms[..|ms| - 1], ms[|ms| - 1];
      DepositCountIsCardinality(init);
      var k: nat := |ms| - 1;
      if last.isDeposit {
        assert DepositPositions(ms) == DepositPositions(init) + {k};
        assert k !in DepositPositions(init);
      } else {
        assert DepositPositions(ms) == DepositPositions(init);
      }
    }
  }

  /** The count is zero exactly when the history holds no deposit. */
  lemma DepositCountZeroIff(ms: History)
    ensures DepositCount(ms) == 0 <==> forall i :: 0 <= i < |ms| ==> !ms[i].isDeposit
  {
    DepositCountIsCardinality(ms);
    if DepositCount(ms) == 0 {
      forall i | 0 <= i < |ms|
        ensures !ms[i].isDeposit
      {
        var k: nat := i;
        assert k !in DepositPositions(ms);
      }
    } else {
      var k :| k in DepositPositions(ms);
      assert ms[k].isDeposit;
    }
  }

  // ---------------------------------------------------------------------------
  // Amount withdrawn on a day

  lemma AmountWithdrawnOnEmpty(d: Date)
    ensures AmountWithdrawnOn([], d) == 0
  {
  }

  /** Appending adds the new amount when it is a withdrawal dated `d`, and nothing otherwise. */
  lemma AmountWithdrawnOnAppend(ms: History, m: Movement, d: Date)
    ensures m.IsWithdrawalOn(d) ==> AmountWithdrawnOn(ms + [m], d) == AmountWithdrawnOn(ms, d) + m.amount
    ensures !m.IsWithdrawalOn(d) ==> AmountWithdrawnOn(ms + [m], d) == AmountWithdrawnOn(ms, d)
  {
    assert (ms + [m])[..|ms|] == ms;
  }

  lemma {:induction false} AmountWithdrawnOnConcat(xs: History, ys: History, d: Date)
    ensures AmountWithdrawnOn(xs + ys, d) == AmountWithdrawnOn(xs, d) + AmountWithdrawnOn(ys, d)
    decreases |ys|
  {
    if |ys| == 0 {
      assert xs + ys == xs;
    } else {
      var init, last := ys[..|ys| - 1], ys[|ys| - 1];
      assert ys == init + [last];
      assert xs + ys == (xs + init) + [last];
      AmountWithdrawnOnConcat(xs, init, d);
      AmountWithdrawnOnAppend(xs + init, last, d);
      AmountWithdrawnOnAppend(init, last, d);
    }
  }

  /** With positive amounts, nothing was withdrawn on `d` exactly when no withdrawal is dated `d`. */
  lemma {:induction false} AmountWithdrawnOnZeroIff(ms: History, d: Date)
    requires AllPositive(ms)
    ensures AmountWithdrawnOn(ms, d) == 0 <==> forall i :: 0 <= i < |ms| ==> !ms[i].IsWithdrawalOn(d)
    decreases |ms|
  {
    if |ms| > 0 {
      var init, last := ms[..|ms| - 1], ms[|ms| - 1];
      assert AllPositive(init) by {
        forall i | 0 <= i < |init| ensures init[i].amount > 0 {
          assert init[i] == ms[i];
        }
      }
      AmountWithdrawnOnZeroIff(init, d);
      if AmountWithdrawnOn(ms, d) == 0 {
        assert !last.IsWithdrawalOn(d);
        forall i | 0 <= i < |ms| ensures !ms[i].IsWithdrawalOn(d) {
          if i < |init| {
            assert ms[i] == init[i];
          }
        }
      } else if AmountWithdrawnOn(init, d) != 0 {
        var i :| 0 <= i < |init| && init[i].IsWithdrawalOn(d);
        assert ms[i] == init[i];
      } else {
        assert ms[|ms| - 1].IsWithdrawalOn(d);
      }
    }
  }

  // ---------------------------------------------------------------------------
  // Net flow

  lemma NetFlowAppend(ms: History, m: Movement)
    ensures NetFlow(ms + [m]) == NetFlow(ms) + m.Effect()
  {
    assert (ms + [m])[..|ms|] == ms;
  }

  lemma {:induction false} NetFlowConcat(xs: History, ys: History)
    ensures NetFlow(xs + ys) == NetFlow(xs) + NetFlow(ys)
    decreases |ys|
  {
    if |ys| == 0 {
      assert xs + ys == xs;
    } else {
      var init, last := ys[..|ys| - 1], ys[|ys| - 1];
      assert ys == init + [last];
      assert xs + ys == (xs + init) + [last];
      NetFlowConcat(xs, init);
      NetFlowAppend(xs + init, last);
      NetFlowAppend(init, last);
    }
  }

  // ---------------------------------------------------------------------------
  // The stream pipelines of the account, as loops over the history

  /** Counts the deposits one movement at a time, as the filter-and-count stream does. */
  method CountDeposits(ms: History) returns (n: nat)
    ensures n == DepositCount(ms)
    ensures n == |DepositPositions(ms)|
  {
    n := 0;
    var i := 0;
    while i < |ms|
      invariant 0 <= i <= |ms|
      invariant n == DepositCount(ms[..i])
    {
      assert ms[..i + 1] == ms[..i] + [ms[i]];
      DepositCountAppend(ms[..i], ms[i]);
      if ms[i].isDeposit {
        n := n + 1;
      }
      i := i + 1;
    }
    assert ms[..i] == ms;
    DepositCountIsCardinality(ms);
  }

  /** Sums the withdrawals dated `d` one movement at a time, as the filter-and-sum stream does. */
  method SumWithdrawnOn(ms: History, d: Date) returns (total: int)
    ensures total == AmountWithdrawnOn(ms, d)
  {
    total := 0;
    var i := 0;
    while i < |ms|
      invariant 0 <= i <= |ms|
      invariant total == AmountWithdrawnOn(ms[..i], d)
    {
      assert ms[..i + 1] == ms[..i] + [ms[i]];
      AmountWithdrawnOnAppend(ms[..i], ms[i], d);
      if !ms[i].isDeposit && ms[i].date == d {
        total := total + ms[i].amount;
      }
      i := i + 1;
    }
    assert ms[..i] == ms;
  }
}
