/**
 * One rerun of the dashboard script: filter the loaded table with the
 * sidebar selection, then either warn that nothing matches or compute the
 * metrics and the two grouped tables the charts are drawn from.
 */
module Dashboard {
  import opened Collections
  import opened Customers
  import opened Filtering
  import opened Metrics
  import opened ChannelChurn
  import opened Cohorts

  /** What the page computes from `filtered_df` on the non-empty branch. */
  datatype Report = Report(summary: Summary, channelChurn: seq<ChannelRate>, cohortSummary: seq<CohortCount>)

  /** The page body: the warning when no row matches, otherwise the report. */
  datatype View = NoMatchWarning | Page(report: Report)

  /**
   * `if filtered_df.empty: st.warning(...) else: ...`. The warning is shown
   * exactly when no row matches; otherwise the report holds the metrics,
   * the channel table and the cohort table of the filtered rows, whose
   * properties `Summarize`, `ChannelChurnShape`, `CohortSummaryEntries`,
   * `CohortSummaryOrdered` and `CohortSummaryTotal` state.
   */
  function Render(df: seq<Customer>, c: Criteria): (v: View)
    ensures v.NoMatchWarning? <==> (forall r :: r in df ==> !Matches(c, r))
    ensures v.Page? ==> var rows := Filter(df, c);
      && v.report.summary.customers == |rows| > 0
      && (BinaryChurn(rows) ==>
            v.report.summary.churnRate == ChurnedCount(rows) as real / |rows| as real
            && 0.0 <= v.report.summary.churnRate <= 1.0)
      && v.report.summary == Summarize(rows)
      && v.report.channelChurn == ComputeChannelChurn(rows)
      && v.report.cohortSummary == CohortSummary(rows)
      && NonIncreasing(v.report.channelChurn)
      && KeysIncreasing(v.report.cohortSummary)
      && TotalCustomers(v.report.cohortSummary) == KeyedCount(rows)
  {
    var rows := Filter(df, c);
    if rows == [] then
      NoMatchWarning
    else
      assert rows[0] in rows;
      CohortSummaryOrdered(rows);
      CohortSummaryTotal(rows);
      Page(Report(Summarize(rows), ComputeChannelChurn(rows), CohortSummary(rows)))
  }

  /**
   * With no gas label or no channel selected, or an empty product range,
   * the page only warns; nothing is computed.
   */
  lemma EmptySelectionWarns(df: seq<Customer>, c: Criteria)
    requires c.gas == {} || c.origins == {} || c.lo > c.hi
    ensures Render(df, c) == NoMatchWarning
  {
  }

  /**
   * On a loaded table whose `churn` column is 0/1, a page that is shown
   * reports a churn rate equal to the share of matching customers whose
   * churn flag is 1.
   */
  lemma LoadedChurnRate(raw: seq<RawRow>, c: Criteria)
    requires forall r :: r in raw ==> r.churn == 0 || r.churn == 1
    ensures var df := LoadData(raw);
      Render(df, c).Page? ==>
        Render(df, c).report.summary.churnRate ==
          ChurnedCount(Filter(df, c)) as real / |Filter(df, c)| as real
  {
  }

  /** The four customers of the worked example below. */
  const R1 := Customer(Some(Yes), 1, Some(Churned), 2, Some("A"), Some(2015), 0.0)
  const R2 := Customer(Some(No), 0, Some(Active), 3, Some("B"), Some(2016), 0.0)
  const R3 := Customer(Some(Yes), 0, Some(Active), 1, Some("A"), Some(2015), 0.0)
  const R4 := Customer(Some(Yes), 1, Some(Churned), 5, Some("C"), Some(2017), 0.0)
  const ExampleSelection := Criteria({Yes}, 1, 5, {"A", "C"})

  lemma ExampleFilter()
    ensures Filter([R1, R2, R3, R4], ExampleSelection) == [R1, R3, R4]
  {
    assert [R1, R2, R3, R4][1..] == [R2, R3, R4] && [R2, R3, R4][1..] == [R3, R4];
    assert [R3, R4][1..] == [R4] && [R4][1..] == [];
    assert Filter([R4], ExampleSelection) == [R4];
    assert Filter([R3, R4], ExampleSelection) == [R3, R4];
    assert Filter([R2, R3, R4], ExampleSelection) == [R3, R4];
  }

  lemma ExampleSummary()
    ensures Summarize([R1, R3, R4]) == Summary(3, 2.0 / 3.0, 0.0)
  {
    var rows := [R1, R3, R4];
    assert rows[1..] == [R3, R4] && [R3, R4][1..] == [R4] && [R4][1..] == [];
    assert ChurnSum([R4]) == 1 && ChurnSum([R3, R4]) == 1 && ChurnSum(rows) == 2;
    assert MarginSum([R4]) == 0.0 && MarginSum([R3, R4]) == 0.0 && MarginSum(rows) == 0.0;
  }

  lemma ExampleChannelKeys()
    ensures Channels([R1, R3, R4]) == ["A", "C"]
  {
    assert [R1, R3, R4][..2] == [R1, R3] && [R1, R3][..1] == [R1] && [R1][..0] == [];
    assert Channels([R1]) == ["A"];
    assert Channels([R1, R3]) == ["A"];
  }

  lemma ExampleGroupA()
    ensures GroupRate([R1, R3, R4], "A") == 0.5
  {
    var rows := [R1, R3, R4];
    assert rows[1..] == [R3, R4] && [R3, R4][1..] == [R4] && [R4][1..] == [];
    assert InChannel([R4], "A") == [] && InChannel([R3, R4], "A") == [R3];
    assert InChannel(rows, "A") == [R1, R3];
    assert [R1, R3][1..] == [R3] && [R3][1..] == [];
    assert ChurnSum([R3]) == 0 && ChurnSum([R1, R3]) == 1;
  }

  lemma ExampleGroupC()
    ensures GroupRate([R1, R3, R4], "C") == 1.0
  {
    var rows := [R1, R3, R4];
    assert rows[1..] == [R3, R4] && [R3, R4][1..] == [R4] && [R4][1..] == [];
    assert InChannel([R4], "C") == [R4] && InChannel([R3, R4], "C") == [R4];
    assert InChannel(rows, "C") == [R4];
    assert ChurnSum([R4]) == 1;
  }

  lemma ExampleChannels()
    ensures ComputeChannelChurn([R1, R3, R4]) == [ChannelRate("C", 1.0), ChannelRate("A", 0.5)]
  {
    var rows := [R1, R3, R4];
    ExampleChannelKeys();
    ExampleGroupA();
    ExampleGroupC();
    var a, c := ChannelRate("A", 0.5), ChannelRate("C", 1.0);
    assert Groups(rows, ["A", "C"]) == [a, c];
    assert [a, c][1..] == [c] && [c][1..] == [];
    assert SortByRate([c]) == [c];
    assert InsertByRate(a, [c]) == [c, a];
  }

  lemma ExampleCohorts()
    ensures CohortSummary([R1, R3, R4]) ==
      [CohortCount(2015, Active, 1), CohortCount(2015, Churned, 1), CohortCount(2017, Churned, 1)]
  {
    var rows := [R1, R3, R4];
    assert rows[1..] == [R3, R4] && [R3, R4][1..] == [R4] && [R4][1..] == [];
    assert CohortYears([R4]) == [2017];
    assert CohortYears([R3, R4]) == [2015, 2017];
    assert CohortYears(rows) == [2015, 2017];
    assert CohortSize([R4], 2015, Active) == 0 && CohortSize([R3, R4], 2015, Active) == 1;
    assert CohortSize(rows, 2015, Active) == 1;
    assert CohortSize([R4], 2015, Churned) == 0 && CohortSize([R3, R4], 2015, Churned) == 0;
    assert CohortSize(rows, 2015, Churned) == 1;
    assert CohortSize([R4], 2017, Active) == 0 && CohortSize([R3, R4], 2017, Active) == 0;
    assert CohortSize(rows, 2017, Active) == 0;
    assert CohortSize([R4], 2017, Churned) == 1 && CohortSize([R3, R4], 2017, Churned) == 1;
    assert CohortSize(rows, 2017, Churned) == 1;
    assert [2015, 2017][1..] == [2017] && [2017][1..] == [];
    assert YearEntries(rows, 2015) == [CohortCount(2015, Active, 1), CohortCount(2015, Churned, 1)];
    assert YearEntries(rows, 2017) == [CohortCount(2017, Churned, 1)];
    assert CohortEntries(rows, [2017]) == [CohortCount(2017, Churned, 1)];
  }

  /**
   * A worked example: four customers, selection gas {Yes}, products 1 to 5,
   * channels {A, C}. The second customer is dropped; the churn rate is 2/3;
   * channel C (rate 1) comes before channel A (rate 1/2); the cohorts are
   * 2015 Active, 2015 Churned and 2017 Churned, one customer each.
   */
  lemma WorkedExample()
    ensures Render([R1, R2, R3, R4], ExampleSelection) == Page(Report(
      Summary(3, 2.0 / 3.0, 0.0),
      [ChannelRate("C", 1.0), ChannelRate("A", 0.5)],
      [CohortCount(2015, Active, 1), CohortCount(2015, Churned, 1), CohortCount(2017, Churned, 1)]))
  {
    ExampleFilter();
    ExampleSummary();
    ExampleChannels();
    ExampleCohorts();
  }
}
