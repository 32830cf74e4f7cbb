/**
 * The sidebar selection and the boolean mask that turns the loaded table
 * into `filtered_df`.
 */
module Filtering {
  import opened Collections
  import opened Customers

  /**
   * The three filter inputs: the selected gas labels, the inclusive product
   * range `(lo, hi)` given to `between`, and the selected channels.
   */
  datatype Criteria = Criteria(gas: set<GasLabel>, lo: int, hi: int, origins: set<string>)

  /**
   * The mask of one row. `isin` is false on a missing cell: the selectable
   * options come from `dropna()`, so no selection holds a missing value.
   */
  predicate Matches(c: Criteria, r: Customer) {
    && r.hasGas.Some? && r.hasGas.value in c.gas
    && c.lo <= r.nbProdAct <= c.hi
    && r.originUp.Some? && r.originUp.value in c.origins
  }

  /** `df[mask]`: every row whose mask is true, as often as it occurs, in table order. */
  function Filter(df: seq<Customer>, c: Criteria): (out: seq<Customer>)
    ensures |out| <= |df|
    ensures forall r :: r in out <==> r in df && Matches(c, r)
  {
    if df == [] then []
    else (if Matches(c, df[0]) then [df[0]] else []) + Filter(df[1..], c)
  }

  /**
   * Every matching row is kept as often as it occurs in the table and no
   * other row is kept, so `len(filtered_df)` counts the matching customers.
   */
  lemma {:induction false} FilterCounts(df: seq<Customer>, c: Criteria)
    ensures forall r :: multiset(Filter(df, c))[r] == if Matches(c, r) then multiset(df)[r] else 0
  {
    if df != [] {
      FilterCounts(df[1..], c);
      assert df == [df[0]] + df[1..];
    }
  }

  /** Boolean-mask indexing keeps the table's order and neither repeats nor alters a row. */
  lemma {:induction false} FilterIsSubsequence(df: seq<Customer>, c: Criteria)
    ensures IsSubsequence(Filter(df, c), df)
    ensures multiset(Filter(df, c)) <= multiset(df)
  {
    if df != [] {
      FilterIsSubsequence(df[1..], c);
      var rest := Filter(df[1..], c);
      if Matches(c, df[0]) {
        assert Filter(df, c) == [df[0]] + rest;
        assert ([df[0]] + rest)[1..] == rest;
      } else {
        assert Filter(df, c) == rest;
        SkipFirst(rest, df);
      }
    }
    SubsequenceIsSmaller(Filter(df, c), df);
  }

  lemma SkipFirst(a: seq<Customer>, b: seq<Customer>)
    requires |b| > 0 && IsSubsequence(a, b[1..])
    ensures IsSubsequence(a, b)
  {
  }

  /** Filtering a second time with the same selection changes nothing. */
  lemma {:induction false} FilterIdempotent(df: seq<Customer>, c: Criteria)
    ensures Filter(Filter(df, c), c) == Filter(df, c)
  {
    if df != [] {
      FilterIdempotent(df[1..], c);
      var rest := Filter(df[1..], c);
      if Matches(c, df[0]) {
        var out := [df[0]] + rest;
        assert Filter(df, c) == out;
        assert out[0] == df[0] && out[1..] == rest;
        assert Filter(out, c) == [df[0]] + Filter(rest, c);
      } else {
        assert Filter(df, c) == rest;
      }
    }
  }

  /** `wide` admits every row `narrow` admits: both sets grow and the range encloses the old one. */
  predicate Widens(narrow: Criteria, wide: Criteria) {
    && narrow.gas <= wide.gas
    && narrow.origins <= wide.origins
    && wide.lo <= narrow.lo
    && narrow.hi <= wide.hi
  }

  /**
   * Widening the selection never drops a row: the narrow result is a
   * subsequence of the wide one, hence no longer, and filtering the wide
   * result narrowly gives the narrow result.
   */
  lemma {:induction false} FilterMonotone(df: seq<Customer>, narrow: Criteria, wide: Criteria)
    requires Widens(narrow, wide)
    ensures IsSubsequence(Filter(df, narrow), Filter(df, wide))
    ensures |Filter(df, narrow)| <= |Filter(df, wide)|
    ensures Filter(Filter(df, wide), narrow) == Filter(df, narrow)
  {
    if df != [] {
      FilterMonotone(df[1..], narrow, wide);
      var n, w := Filter(df[1..], narrow), Filter(df[1..], wide);
      if Matches(narrow, df[0]) {
        assert Filter(df, narrow) == [df[0]] + n;
        assert Filter(df, wide) == [df[0]] + w;
        assert ([df[0]] + n)[1..] == n;
        assert ([df[0]] + w)[1..] == w;
      } else if Matches(wide, df[0]) {
        assert Filter(df, narrow) == n;
        assert Filter(df, wide) == [df[0]] + w;
        assert ([df[0]] + w)[1..] == w;
        SkipFirst(n, Filter(df, wide));
      } else {
        assert Filter(df, narrow) == n;
        assert Filter(df, wide) == w;
      }
    }
    SubsequenceIsSmaller(Filter(df, narrow), Filter(df, wide));
  }

  /** An empty gas or channel selection, or an empty range, leaves no row. */
  lemma EmptySelectionFiltersAll(df: seq<Customer>, c: Criteria)
    requires c.gas == {} || c.origins == {} || c.lo > c.hi
    ensures Filter(df, c) == []
  {
  }

  /** Gas labels present in the table: `sorted(df["has_gas"].dropna().unique())`. */
  function GasOptions(df: seq<Customer>): (s: set<GasLabel>)
    ensures forall g :: g in s <==> exists r :: r in df && r.hasGas == Some(g)
  {
    set r | r in df && r.hasGas.Some? :: r.hasGas.value
  }

  /** Channels present in the table: `sorted(df["origin_up"].dropna().unique())`. */
  function OriginOptions(df: seq<Customer>): (s: set<string>)
    ensures forall o :: o in s <==> exists r :: r in df && r.originUp == Some(o)
  {
    set r | r in df && r.originUp.Some? :: r.originUp.value
  }

  /** `df["nb_prod_act"].min()` of a non-empty table. */
  function MinProducts(df: seq<Customer>): (m: int)
    requires |df| > 0
    ensures forall r :: r in df ==> m <= r.nbProdAct
    ensures exists r :: r in df && r.nbProdAct == m
  {
    if |df| == 1 then df[0].nbProdAct
    else
      var rest := MinProducts(df[1..]);
      assert forall r :: r in df ==> r == df[0] || r in df[1..];
      if df[0].nbProdAct <= rest then df[0].nbProdAct else rest
  }

  /** `df["nb_prod_act"].max()` of a non-empty table. */
  function MaxProducts(df: seq<Customer>): (m: int)
    requires |df| > 0
    ensures forall r :: r in df ==> r.nbProdAct <= m
    ensures exists r :: r in df && r.nbProdAct == m
  {
    if |df| == 1 then df[0].nbProdAct
    else
      var rest := MaxProducts(df[1..]);
      assert forall r :: r in df ==> r == df[0] || r in df[1..];
      if df[0].nbProdAct >= rest then df[0].nbProdAct else rest
  }

  /**
   * The selection the sidebar starts with: every gas option, the full
   * product range and every channel. On an empty table `int()` of the NaN
   * minimum raises, so there is no default selection.
   */
  function DefaultCriteria(df: seq<Customer>): (c: Option<Criteria>)
    ensures c.Some? <==> |df| > 0
  {
    if |df| == 0 then None
    else Some(Criteria(GasOptions(df), MinProducts(df), MaxProducts(df), OriginOptions(df)))
  }

  /**
   * Under the default selection a row is kept exactly when its gas label and
   * its channel are present; in particular a row whose `has_gas` was neither
   * "t" nor "f" never passes.
   */
  lemma DefaultKeepsCompleteRows(df: seq<Customer>)
    requires |df| > 0
    ensures forall r :: r in Filter(df, DefaultCriteria(df).value) <==>
      r in df && r.hasGas.Some? && r.originUp.Some?
  {
  }
}
