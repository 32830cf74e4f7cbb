/**
 * The "Key Metrics" row: number of customers, churn rate and average net
 * margin of the filtered table.
 */
module Metrics {
  import opened Customers

  /** Sum of the `churn` column. */
  function ChurnSum(rows: seq<Customer>): int {
    if rows == [] then 0 else rows[0].churn + ChurnSum(rows[1..])
  }

  /** Number of rows whose `churn` is 1. */
  function ChurnedCount(rows: seq<Customer>): (n: nat)
    ensures n <= |rows|
  {
    if rows == [] then 0 else (if rows[0].churn == 1 then 1 else 0) + ChurnedCount(rows[1..])
  }

  /** Every `churn` cell is 0 or 1, as in the cleaned file. */
  predicate BinaryChurn(rows: seq<Customer>) {
    forall r :: r in rows ==> r.churn == 0 || r.churn == 1
  }

  /** `filtered_df["churn"].mean() if not filtered_df.empty else 0`. */
  function ChurnRate(rows: seq<Customer>): real {
    if |rows| == 0 then 0.0 else ChurnSum(rows) as real / |rows| as real
  }

  /** On a 0/1 column the sum counts the churned rows. */
  lemma {:induction false} ChurnSumCountsChurned(rows: seq<Customer>)
    requires BinaryChurn(rows)
    ensures ChurnSum(rows) == ChurnedCount(rows)
  {
    if rows != [] {
      assert rows[0] in rows;
      assert BinaryChurn(rows[1..]) by {
        forall r | r in rows[1..] ensures r in rows { }
      }
      ChurnSumCountsChurned(rows[1..]);
    }
  }

  lemma ShareIsFraction(k: int, n: int)
    requires 0 <= k <= n && n > 0
    ensures 0.0 <= k as real / n as real <= 1.0
  {
  }

  /**
   * On rows whose churn flags are 0 or 1 the churn rate is the share of
   * churned rows, a number between 0 and 1.
   */
  lemma ChurnRateIsChurnedShare(rows: seq<Customer>)
    requires |rows| > 0 && BinaryChurn(rows)
    ensures ChurnRate(rows) == ChurnedCount(rows) as real / |rows| as real
    ensures 0.0 <= ChurnRate(rows) <= 1.0
  {
    ChurnSumCountsChurned(rows);
    ShareIsFraction(ChurnedCount(rows), |rows|);
  }

  /** Sum of the `margin_net_pow_ele` column. */
  function MarginSum(rows: seq<Customer>): real {
    if rows == [] then 0.0 else rows[0].marginNetPowEle + MarginSum(rows[1..])
  }

  /** `filtered_df["margin_net_pow_ele"].mean() if not filtered_df.empty else 0`, in exact arithmetic. */
  function AvgMargin(rows: seq<Customer>): real {
    if |rows| == 0 then 0.0 else MarginSum(rows) / |rows| as real
  }

  lemma {:induction false} MarginSumBounds(rows: seq<Customer>, lo: real, hi: real)
    requires forall r :: r in rows ==> lo <= r.marginNetPowEle <= hi
    ensures |rows| as real * lo <= MarginSum(rows) <= |rows| as real * hi
  {
    if rows != [] {
      assert rows[0] in rows;
      forall r | r in rows[1..] ensures lo <= r.marginNetPowEle <= hi {
        assert r in rows;
      }
      MarginSumBounds(rows[1..], lo, hi);
      var n := |rows[1..]| as real;
      assert |rows| as real == n + 1.0;
      assert (n + 1.0) * lo == n * lo + lo;
      assert (n + 1.0) * hi == n * hi + hi;
    }
  }

  /** The average margin lies between the smallest and largest margin of the rows. */
  lemma AvgMarginBounds(rows: seq<Customer>, lo: real, hi: real)
    requires |rows| > 0
    requires forall r :: r in rows ==> lo <= r.marginNetPowEle <= hi
    ensures lo <= AvgMargin(rows) <= hi
  {
    MarginSumBounds(rows, lo, hi);
    var n := |rows| as real;
    var s := MarginSum(rows);
    assert s / n * n == s;
  }

  /** What the three metric cards show. */
  datatype Summary = Summary(customers: nat, churnRate: real, avgMargin: real)

  /**
   * The metrics of a non-empty filtered table: its row count, the churn
   * rate (the share of churned rows when the flags are 0/1) and the
   * average margin.
   */
  function Summarize(rows: seq<Customer>): (s: Summary)
    ensures s.customers == |rows|
    ensures |rows| > 0 && BinaryChurn(rows) ==>
      s.churnRate == ChurnedCount(rows) as real / |rows| as real && 0.0 <= s.churnRate <= 1.0
    ensures s.avgMargin == AvgMargin(rows)
  {
    if |rows| > 0 && BinaryChurn(rows) then
      ChurnRateIsChurnedShare(rows);
      Summary(|rows|, ChurnRate(rows), AvgMargin(rows))
    else
      Summary(|rows|, ChurnRate(rows), AvgMargin(rows))
  }
}
