/**
 * `cohort_summary`: the number of customers per (activation year, churn
 * label) pair, for the stacked bar chart.
 */
module Cohorts {
  import opened Collections
  import opened Customers

  /** One row of `groupby(["activation_year", "churn_label"]).size().reset_index(name="customers")`. */
  datatype CohortCount = CohortCount(year: int, status: ChurnLabel, customers: nat)

  /** A row takes part in the group-by only when both keys are present (NaN keys are dropped). */
  predicate Keyed(r: Customer) {
    r.activationYear.Some? && r.churnLabel.Some?
  }

  /** Rows with activation year `y` and churn label `l`. */
  function CohortSize(rows: seq<Customer>, y: int, l: ChurnLabel): nat {
    if rows == [] then 0
    else
      var here := if rows[0].activationYear == Some(y) && rows[0].churnLabel == Some(l) then 1 else 0;
      here + CohortSize(rows[1..], y, l)
  }

  /** A (year, label) pair has a positive size exactly when some row carries it. */
  lemma {:induction false} CohortSizePositive(rows: seq<Customer>, y: int, l: ChurnLabel)
    ensures CohortSize(rows, y, l) > 0 <==>
      exists r :: r in rows && r.activationYear == Some(y) && r.churnLabel == Some(l)
  {
    if rows != [] {
      CohortSizePositive(rows[1..], y, l);
      assert forall r :: r in rows <==> r == rows[0] || r in rows[1..] by {
        assert rows == [rows[0]] + rows[1..];
      }
    }
  }

  /** Strictly increasing, so no year appears twice. */
  predicate Increasing(ys: seq<int>) {
    forall i, j :: 0 <= i < j < |ys| ==> ys[i] < ys[j]
  }

  /** Adds `y` to an increasing sequence unless it is already there. */
  function InsertYear(y: int, ys: seq<int>): (t: seq<int>)
    requires Increasing(ys)
    ensures Increasing(t)
    ensures forall x :: x in t <==> x == y || x in ys
  {
    if ys == [] then [y]
    else if y < ys[0] then [y] + ys
    else if y == ys[0] then ys
    else
      var rest := InsertYear(y, ys[1..]);
      assert forall x :: x in ys <==> x == ys[0] || x in ys[1..] by {
        assert ys == [ys[0]] + ys[1..];
      }
      var t := [ys[0]] + rest;
      assert forall k :: 0 <= k < |rest| ==> ys[0] < rest[k] by {
        forall k | 0 <= k < |rest| ensures ys[0] < rest[k] {
          assert rest[k] in rest;
        }
      }
      assert forall i, j :: 0 < i < j < |t| ==> t[i] < t[j] by {
        forall i, j | 0 < i < j < |t| ensures t[i] < t[j] {
          assert t[i] == rest[i - 1] && t[j] == rest[j - 1];
        }
      }
      t
  }

  /** The activation years of the keyed rows, ascending, as `groupby` orders its keys. */
  function CohortYears(rows: seq<Customer>): (ys: seq<int>)
    ensures Increasing(ys)
    ensures forall y :: y in ys <==> exists r :: r in rows && Keyed(r) && r.activationYear == Some(y)
  {
    if rows == [] then []
    else
      var rest := CohortYears(rows[1..]);
      assert forall r :: r in rows <==> r == rows[0] || r in rows[1..] by {
        assert rows == [rows[0]] + rows[1..];
      }
      if Keyed(rows[0]) then InsertYear(rows[0].activationYear.value, rest) else rest
  }

  /** The entries of one year: "Active" sorts before "Churned"; empty pairs are omitted. */
  function YearEntries(rows: seq<Customer>, y: int): seq<CohortCount> {
    var active, churned := CohortSize(rows, y, Active), CohortSize(rows, y, Churned);
    (if active > 0 then [CohortCount(y, Active, active)] else [])
      + (if churned > 0 then [CohortCount(y, Churned, churned)] else [])
  }

  /** The entries of the given years, year by year. */
  function CohortEntries(rows: seq<Customer>, ys: seq<int>): seq<CohortCount> {
    if ys == [] then [] else YearEntries(rows, ys[0]) + CohortEntries(rows, ys[1..])
  }

  /** `cohort_summary`. */
  function CohortSummary(rows: seq<Customer>): seq<CohortCount> {
    CohortEntries(rows, CohortYears(rows))
  }

  lemma YearEntriesMembership(rows: seq<Customer>, y: int)
    ensures forall e :: e in YearEntries(rows, y) <==>
      e.year == y && e.customers == CohortSize(rows, y, e.status) && e.customers > 0
  {
    forall e ensures e in YearEntries(rows, y) <==>
      e.year == y && e.customers == CohortSize(rows, y, e.status) && e.customers > 0
    {
      if e.year == y && e.customers == CohortSize(rows, y, e.status) && e.customers > 0 {
        match e.status
        case Active => assert e == CohortCount(y, Active, CohortSize(rows, y, Active));
        case Churned => assert e == CohortCount(y, Churned, CohortSize(rows, y, Churned));
      }
    }
  }

  /** An entry for year `y` in `ys` and label `l` is listed exactly when the pair is non-empty, with its size. */
  lemma {:induction false} EntriesMembership(rows: seq<Customer>, ys: seq<int>)
    ensures forall e :: e in CohortEntries(rows, ys) <==>
      e.year in ys && e.customers == CohortSize(rows, e.year, e.status) && e.customers > 0
  {
    if ys != [] {
      EntriesMembership(rows, ys[1..]);
      YearEntriesMembership(rows, ys[0]);
      assert forall x :: x in ys <==> x == ys[0] || x in ys[1..] by {
        assert ys == [ys[0]] + ys[1..];
      }
    }
  }

  /**
   * `cohort_summary` holds one entry per (year, label) pair that occurs in
   * the rows, and its count is the number of rows with that pair.
   */
  lemma CohortSummaryEntries(rows: seq<Customer>)
    ensures forall e :: e in CohortSummary(rows) <==>
      e.customers == CohortSize(rows, e.year, e.status) && e.customers > 0
    ensures forall y, l :: (exists e :: e in CohortSummary(rows) && e.year == y && e.status == l) <==>
      (exists r :: r in rows && r.activationYear == Some(y) && r.churnLabel == Some(l))
  {
    var ys := CohortYears(rows);
    EntriesMembership(rows, ys);
    forall e ensures e in CohortSummary(rows) <==> e.customers == CohortSize(rows, e.year, e.status) && e.customers > 0 {
      if e.customers == CohortSize(rows, e.year, e.status) && e.customers > 0 {
        CohortSizePositive(rows, e.year, e.status);
        var r :| r in rows && r.activationYear == Some(e.year) && r.churnLabel == Some(e.status);
        assert Keyed(r);
      }
    }
    forall y, l ensures (exists e :: e in CohortSummary(rows) && e.year == y && e.status == l) <==>
      (exists r :: r in rows && r.activationYear == Some(y) && r.churnLabel == Some(l))
    {
      CohortSizePositive(rows, y, l);
      if CohortSize(rows, y, l) > 0 {
        assert CohortCount(y, l, CohortSize(rows, y, l)) in CohortSummary(rows);
      }
    }
  }

  /** The order `groupby` gives its keys: by year, then "Active" before "Churned". */
  predicate KeyBefore(a: CohortCount, b: CohortCount) {
    a.year < b.year || (a.year == b.year && a.status == Active && b.status == Churned)
  }

  predicate KeysIncreasing(es: seq<CohortCount>) {
    forall i, j :: 0 <= i < j < |es| ==> KeyBefore(es[i], es[j])
  }

  /** The entries come in strictly increasing key order, so no pair is listed twice. */
  lemma {:induction false} EntriesOrdered(rows: seq<Customer>, ys: seq<int>)
    requires Increasing(ys)
    ensures KeysIncreasing(CohortEntries(rows, ys))
  {
    if ys != [] {
      var head, tail := YearEntries(rows, ys[0]), CohortEntries(rows, ys[1..]);
      assert Increasing(ys[1..]) by {
        forall i, j | 0 <= i < j < |ys[1..]| ensures ys[1..][i] < ys[1..][j] {
          assert ys[1..][i] == ys[i + 1] && ys[1..][j] == ys[j + 1];
        }
      }
      EntriesOrdered(rows, ys[1..]);
      EntriesMembership(rows, ys[1..]);
      assert forall e :: e in tail ==> ys[0] < e.year by {
        forall e | e in tail ensures ys[0] < e.year {
          var k :| 0 <= k < |ys[1..]| && ys[1..][k] == e.year;
          assert ys[k + 1] == e.year;
        }
      }
      var all := head + tail;
      forall i, j | 0 <= i < j < |all| ensures KeyBefore(all[i], all[j]) {
        if j < |head| {
        } else if i < |head| {
          assert all[j] == tail[j - |head|];
          assert tail[j - |head|] in tail;
        } else {
          assert all[i] == tail[i - |head|] && all[j] == tail[j - |head|];
        }
      }
    }
  }

  /** `cohort_summary` is ordered by (year, label). */
  lemma CohortSummaryOrdered(rows: seq<Customer>)
    ensures KeysIncreasing(CohortSummary(rows))
  {
    EntriesOrdered(rows, CohortYears(rows));
  }

  /** Total of the `customers` column. */
  function TotalCustomers(es: seq<CohortCount>): nat {
    if es == [] then 0 else es[0].customers + TotalCustomers(es[1..])
  }

  lemma {:induction false} TotalAppend(a: seq<CohortCount>, b: seq<CohortCount>)
    ensures TotalCustomers(a + b) == TotalCustomers(a) + TotalCustomers(b)
  {
    if a == [] {
      assert a + b == b;
    } else {
      assert (a + b)[0] == a[0];
      assert (a + b)[1..] == a[1..] + b;
      TotalAppend(a[1..], b);
    }
  }

  /** Keyed rows whose activation year is one of `ys`. */
  function KeyedIn(rows: seq<Customer>, ys: seq<int>): nat {
    if rows == [] then 0
    else (if Keyed(rows[0]) && rows[0].activationYear.value in ys then 1 else 0) + KeyedIn(rows[1..], ys)
  }

  /** Keyed rows. */
  function KeyedCount(rows: seq<Customer>): (n: nat)
    ensures n <= |rows|
  {
    if rows == [] then 0 else (if Keyed(rows[0]) then 1 else 0) + KeyedCount(rows[1..])
  }

  /** Adding a new year to `ys` adds that year's two cohorts to the count. */
  lemma {:induction false} KeyedInCons(rows: seq<Customer>, y: int, ys: seq<int>)
    requires y !in ys
    ensures KeyedIn(rows, [y] + ys) == CohortSize(rows, y, Active) + CohortSize(rows, y, Churned) + KeyedIn(rows, ys)
  {
    if rows != [] {
      KeyedInCons(rows[1..], y, ys);
      var r := rows[0];
      if r.churnLabel.Some? {
        assert r.churnLabel == Some(Active) || r.churnLabel == Some(Churned) by {
          match r.churnLabel.value
          case Active =>
          case Churned =>
        }
      }
      if r.activationYear.Some? {
        assert r.activationYear.value in [y] + ys <==> r.activationYear.value == y || r.activationYear.value in ys;
      }
    }
  }

  /** When `ys` holds every keyed row's year, every keyed row is counted. */
  lemma {:induction false} KeyedInAll(rows: seq<Customer>, ys: seq<int>)
    requires forall r :: r in rows && Keyed(r) ==> r.activationYear.value in ys
    ensures KeyedIn(rows, ys) == KeyedCount(rows)
  {
    if rows != [] {
      assert forall r :: r in rows[1..] ==> r in rows;
      KeyedInAll(rows[1..], ys);
      assert rows[0] in rows;
    }
  }

  lemma {:induction false} EntriesTotal(rows: seq<Customer>, ys: seq<int>)
    requires Increasing(ys)
    ensures TotalCustomers(CohortEntries(rows, ys)) == KeyedIn(rows, ys)
  {
    if ys == [] {
      KeyedInNone(rows);
    } else {
      var y := ys[0];
      assert ys == [y] + ys[1..];
      assert Increasing(ys[1..]) by {
        forall i, j | 0 <= i < j < |ys[1..]| ensures ys[1..][i] < ys[1..][j] {
          assert ys[1..][i] == ys[i + 1] && ys[1..][j] == ys[j + 1];
        }
      }
      assert y !in ys[1..] by {
        forall k | 0 <= k < |ys[1..]| ensures ys[1..][k] != y {
          assert ys[1..][k] == ys[k + 1];
        }
      }
      EntriesTotal(rows, ys[1..]);
      TotalAppend(YearEntries(rows, y), CohortEntries(rows, ys[1..]));
      KeyedInCons(rows, y, ys[1..]);
    }
  }

  lemma {:induction false} KeyedInNone(rows: seq<Customer>)
    ensures KeyedIn(rows, []) == 0
  {
    if rows != [] {
      KeyedInNone(rows[1..]);
    }
  }

  /**
   * The counts of `cohort_summary` add up to the number of rows with both
   * keys present; when every row has an activation year and a churn label
   * they add up to the number of rows.
   */
  lemma CohortSummaryTotal(rows: seq<Customer>)
    ensures TotalCustomers(CohortSummary(rows)) == KeyedCount(rows)
    ensures (forall r :: r in rows ==> Keyed(r)) ==> TotalCustomers(CohortSummary(rows)) == |rows|
  {
    var ys := CohortYears(rows);
    EntriesTotal(rows, ys);
    KeyedInAll(rows, ys);
    if forall r :: r in rows ==> Keyed(r) {
      AllKeyedCount(rows);
    }
  }

  lemma {:induction false} AllKeyedCount(rows: seq<Customer>)
    requires forall r :: r in rows ==> Keyed(r)
    ensures KeyedCount(rows) == |rows|
  {
    if rows != [] {
      assert rows[0] in rows;
      assert forall r :: r in rows[1..] ==> r in rows;
      AllKeyedCount(rows[1..]);
    }
  }
}
