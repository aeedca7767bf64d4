/** One stream paying a series of requests: the balance of each request is its share of the total. */
module SuperfluidDetector {
  import opened Wrappers

  /** A balance result, with its error if the computation failed. */
  datatype Balance = Balance(balance: Option<int>, error: Option<string>)

  /** The balance of a request is what the earlier requests leave, between zero and its expected amount. */
  function Share(total: int, expectedAmount: int, recurrenceNumber: int): int {
    var remaining := total - expectedAmount * recurrenceNumber;
    if remaining < 0 then 0 else if remaining > expectedAmount then expectedAmount else remaining
  }

  /** Overwrites the balance of the total unless there is an error or no balance. */
  method GetBalance(total: Balance, expectedAmount: int, recurrenceNumber: Option<int>) returns (r: Balance)
    ensures total.error.Some? || total.balance.None? ==> r == total
    ensures total.error.None? && total.balance.Some? ==>
      r == total.(balance := Some(Share(total.balance.value, expectedAmount, if recurrenceNumber.Some? then recurrenceNumber.value else 0)))
  {
    r := total;
    if total.error.Some? {
      return;
    }
    if r.balance.Some? {
      var recurrence := if recurrenceNumber.Some? then recurrenceNumber.value else 0;
      var remainingBalance := r.balance.value - expectedAmount * recurrence;
      var requestBalance := if remainingBalance < 0 then 0
                            else if remainingBalance > expectedAmount then expectedAmount
                            else remainingBalance;
      r := r.(balance := Some(requestBalance));
    }
  }

  /** What the first `n` requests of a series receive together. */
  function SumOfShares(total: int, expectedAmount: int, n: nat): int {
    if n == 0 then 0 else SumOfShares(total, expectedAmount, n - 1) + Share(total, expectedAmount, n - 1)
  }

  function Min(a: int, b: int): int {
    if a < b then a else b
  }

  /** Conservation: the shares of a series add up to the total, as far as the requests expect it. */
  lemma {:induction false} SharesAddUp(total: int, expectedAmount: int, n: nat)
    requires expectedAmount >= 0
    ensures SumOfShares(total, expectedAmount, n) == Min(if total < 0 then 0 else total, n * expectedAmount)
  {
    if n > 0 {
      SharesAddUp(total, expectedAmount, n - 1);
      var before := (n - 1) * expectedAmount;
      assert n * expectedAmount == before + expectedAmount && expectedAmount * (n - 1) == before && before >= 0;
    }
  }

  lemma {:induction false} MultiplesGrow(e: int, j: nat, k: nat)
    requires e >= 0 && j < k
    ensures e * j + e <= e * k
    decreases k
  {
    assert e * k == e * (k - 1) + e;
    if j < k - 1 {
      MultiplesGrow(e, j, k - 1);
    }
  }

  /** A waterfall: a request receives something only if every earlier one is full, so at most one is partially paid. */
  lemma EarlierRequestsAreFull(total: int, expectedAmount: int, j: nat, k: nat)
    requires expectedAmount >= 0 && j < k && Share(total, expectedAmount, k) > 0
    ensures Share(total, expectedAmount, j) == expectedAmount
  {
    MultiplesGrow(expectedAmount, j, k);
  }

  lemma AtMostOneIsPartial(total: int, expectedAmount: int, j: nat, k: nat)
    requires expectedAmount >= 0
    requires 0 < Share(total, expectedAmount, j) < expectedAmount && 0 < Share(total, expectedAmount, k) < expectedAmount
    ensures j == k
  {
    if j < k {
      EarlierRequestsAreFull(total, expectedAmount, j, k);
    } else if k < j {
      EarlierRequestsAreFull(total, expectedAmount, k, j);
    }
  }
}
