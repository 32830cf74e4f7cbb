# PowerCo churn dashboard: the filter-and-aggregate pipeline

The PowerCo Churn Explorer is a single-page Streamlit dashboard, `app.py`. It loads a
cleaned customer table. It recodes two columns. It filters the rows by gas subscription,
number of active products and acquisition channel. From the filtered rows it computes:

- three metrics;
- the mean churn per channel;
- the number of customers per (activation year, churn status).

This project models that pipeline in Dafny as pure functions over a `seq<Customer>`, one
module per stage:

- `Collections`: the missing-cell `Option`, "no element twice" and "subsequence".
- `Customers`: the raw and loaded row types, and the two recodes of `load_data`.
- `Filtering`: the sidebar selection (`Criteria`), its default values and the boolean mask.
- `Metrics`: row count, churn rate and average net margin.
- `ChannelChurn`: the group-by on `origin_up`, the mean churn per group and the
  descending sort.
- `Cohorts`: the group-by on (activation year, churn label) and the count per group.
- `Dashboard`: the branch between the "no customers match" warning and the report, plus a
  worked four-customer example.

The script has no loops. `load_data` assigns two columns of a frame that is local to it
and then returns it, and the cohort step assigns a column of a copy. Both are modelled as
building new records, so no object is updated in place anywhere in the model.

A missing cell (NaN, NaT) is `None`. The selectable gas labels and channels come from
`dropna()`, so no selection contains a missing value. As a result, `isin` is false on a
missing cell, and `groupby` drops missing keys.

Three behaviours of the code are worth stating, because a reader might expect otherwise:

- A raw `has_gas` value other than `t`/`f` is not rejected at load time. `Series.map`
  with a two-key dictionary makes it missing. `RecodeGas` does the same, and such rows
  then never pass the filter.
- `sort_values("churn", ascending=False)` puts the highest rate first. For the
  four-customer example in `WorkedExample` it gives `[("C", 1.0), ("A", 0.5)]`.
- `groupby` sorts its keys, so for one activation year "Active" comes before "Churned".
  `WorkedExample` proves 2015 Active before 2015 Churned.

## Model

| member | source | states |
|---|---|---|
| `Customers.RecodeGas` | app.py:18 | "t" becomes Yes, "f" becomes No, and every other raw value, missing included, becomes a missing label (each as an if-and-only-if) |
| `Customers.LabelChurn` | app.py:19 | churn 1 gives "Churned", churn 0 gives "Active", and any other value gives a missing label (each as an if-and-only-if) |
| `Customers.Recode` | app.py:18-19 | a loaded row's gas label is the recode of its raw flag, its churn label agrees with its churn flag both ways, and every other column is unchanged |
| `Customers.LoadData` | app.py:16-20 | the loaded table has the same rows in the same order, each recoded, and each with a churn label that agrees with its churn flag |
| `Filtering.Filter` | app.py:44-48 | a row is in `filtered_df` if and only if it is in the table, its gas label is selected, `lo <= nb_prod_act <= hi` (both ends inclusive) and its channel is selected |
| `Filtering.FilterCounts` | app.py:44-48 | every matching row is kept exactly as many times as it occurs in the table, and a non-matching row not at all, so `len(filtered_df)` counts the matching customers |
| `Filtering.FilterIsSubsequence` | app.py:44-48 | the filtered rows are a subsequence of the table: same order, nothing repeated or altered (multiset inclusion) |
| `Filtering.FilterIdempotent` | app.py:44-48 | filtering the filtered rows again with the same selection gives the same rows |
| `Filtering.FilterMonotone` | app.py:44-48 | widening the selection (larger gas or channel set, enclosing range) keeps every previously kept row: the old result is a subsequence of the new one, no longer than it, and filtering the new result with the old selection gives the old result |
| `Filtering.EmptySelectionFiltersAll` | app.py:44-48 | an empty gas set, an empty channel set or a range with `lo > hi` leaves no row |
| `Filtering.GasOptions` | app.py:31 | the gas options are exactly the labels present (non-missing) in the table |
| `Filtering.OriginOptions` | app.py:41 | the channel options are exactly the channels present (non-missing) in the table |
| `Filtering.MinProducts` | app.py:36 | the slider minimum is at most every row's product count and equals some row's |
| `Filtering.MaxProducts` | app.py:37 | the slider maximum is at least every row's product count and equals some row's |
| `Filtering.DefaultCriteria` | app.py:31-42 | a default selection exists exactly when the table is non-empty (on an empty table `int()` of the NaN minimum raises) |
| `Filtering.DefaultKeepsCompleteRows` | app.py:31-48 | under the default selection a row is kept if and only if its gas label and its channel are both present; a row with a missing gas label never passes |
| `Metrics.ChurnSumCountsChurned` | app.py:55 | on a 0/1 churn column the column sum is the number of churned rows |
| `Metrics.ChurnRateIsChurnedShare` | app.py:55 | on non-empty rows with 0/1 churn flags, the mean churn equals churned rows / all rows and lies in [0, 1] |
| `Metrics.AvgMarginBounds` | app.py:56 | the mean net margin of non-empty rows lies between any lower and upper bound of their margins |
| `Metrics.Summarize` | app.py:55-57 | the customer count is the number of rows; on non-empty 0/1 rows the churn rate is the churned share, in [0, 1]; the margin is the mean margin |
| `ChannelChurn.InChannel` | app.py:63 | a channel's group holds exactly the rows with that `origin_up` |
| `ChannelChurn.InChannelCounts` | app.py:63 | a channel's group holds each row of that channel exactly as many times as it occurs, and no row of another channel |
| `ChannelChurn.Channels` | app.py:63 | the group keys are distinct and are exactly the non-missing channels present in the rows |
| `ChannelChurn.InsertByRate` | app.py:64 | inserting an entry adds exactly that entry (multiset) |
| `ChannelChurn.SortByRate` | app.py:64 | the sorted entries are a permutation of the input, ordered by non-increasing rate |
| `ChannelChurn.ComputeChannelChurn` | app.py:62-65 | `channel_churn` is ordered by non-increasing rate and is a permutation of the per-channel groups |
| `ChannelChurn.ChannelChurnShape` | app.py:62-65 | `channel_churn` lists a channel if and only if some row has it; each channel is listed at most once; each rate is the mean churn of a non-empty group; entries are non-increasing; with 0/1 flags each rate is the group's churned share, in [0, 1] |
| `Cohorts.CohortSizePositive` | app.py:100 | a (year, label) pair has a positive count if and only if some row carries that year and that label |
| `Cohorts.CohortYears` | app.py:100 | the cohort years are strictly increasing and are exactly the years of rows that have both keys |
| `Cohorts.CohortSummaryEntries` | app.py:98-100 | an entry is in `cohort_summary` if and only if its count is the number of rows with its (year, label) and is positive; a pair is listed if and only if it occurs in the rows |
| `Cohorts.CohortSummaryOrdered` | app.py:100 | entries come in strictly increasing (year, then "Active" before "Churned") order, so no pair is listed twice |
| `Cohorts.CohortSummaryTotal` | app.py:98-100 | the counts add up to the number of rows that have both an activation year and a churn label, and to the number of filtered rows when every row has both |
| `Dashboard.Render` | app.py:44-100 | the warning is shown if and only if no row matches; otherwise the report's metrics, channel table and cohort table are `Summarize`, `ComputeChannelChurn` and `CohortSummary` of the filtered rows (so the properties proved of those hold on the page), the count is positive, the churn rate is the churned share in [0, 1] on 0/1 rows, the channel table is non-increasing, and the cohort table is key-ordered with counts summing to the keyed rows |
| `Dashboard.EmptySelectionWarns` | app.py:44-51 | an empty gas selection, an empty channel selection or an empty product range leads to the warning branch, with no metrics or charts |
| `Dashboard.LoadedChurnRate` | app.py:16-55 | on a table loaded from 0/1 churn flags, a shown page's churn rate is the churned share of the matching customers |
| `Dashboard.WorkedExample` | app.py:44-100 | for four concrete customers with gas {Yes}, products 1..5 and channels {A, C}, the page shows 3 customers, churn 2/3, channels [C 1.0, A 0.5] and cohorts [2015 Active 1, 2015 Churned 1, 2017 Churned 1] |

## Left out

- Streamlit calls (page config, title, sidebar widgets, metric cards, expander, table display): they are user interface. The user's widget choices are the `Criteria` parameter, and `DefaultCriteria` models only their initial values.
- Plotly chart construction (bar, scatter, stacked bar): it is rendering by an external library. The scatter chart is not backed by any computation.
- CSV reading and date parsing: these are file input and library parsing. The activation year is a given `Option<int>` field instead of `date_activ.dt.year`, and the other parsed date columns are not modelled.
- The `@st.cache_data` memoisation of `load_data`: it is framework caching and does not change the value returned.
- Floating point: means are exact `real` divisions, and the `:.0%` / `:.2f` formatting is left out.
- Missing cells in `churn`, `nb_prod_act` and `margin_net_pow_ele`: these are modelled as always present. pandas would skip a NaN in a mean and treat it as outside every `between` range.
- The display sort of the data table by net margin (app.py:127): it is presentation only.
- ChannelChurn.ComputeChannelChurn: the order of equal rates is not promised. pandas `sort_values` uses quicksort, which is not stable in general. On short arrays it happens to keep the `groupby` order, which sorts the channel names. The model's keys (`Channels`) are in first-appearance order, not sorted, and its insertion sort keeps that order among equal rates. So among equal rates the model's order can differ from what pandas shows. The contract promises only the non-increasing order and the permutation.
