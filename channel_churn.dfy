/**
 * `channel_churn`: mean churn per acquisition channel, sorted from the
 * highest rate down.
 */
module ChannelChurn {
  import opened Collections
  import opened Customers
  import opened Metrics

  /** One row of `groupby("origin_up")["churn"].mean().reset_index()`. */
  datatype ChannelRate = ChannelRate(channel: string, rate: real)

  /** Some row was acquired through channel `o`. */
  predicate Present(rows: seq<Customer>, o: string) {
    exists r :: r in rows && r.originUp == Some(o)
  }

  /** Some entry of `out` is about channel `o`. */
  predicate Listed(out: seq<ChannelRate>, o: string) {
    exists k :: 0 <= k < |out| && out[k].channel == o
  }

  /** The group of channel `o`: the rows whose `origin_up` is `o`, in table order. */
  function InChannel(rows: seq<Customer>, o: string): (g: seq<Customer>)
    ensures |g| <= |rows|
    ensures forall r :: r in g <==> r in rows && r.originUp == Some(o)
  {
    if rows == [] then []
    else (if rows[0].originUp == Some(o) then [rows[0]] else []) + InChannel(rows[1..], o)
  }

  /** A group holds every row of its channel as often as it occurs, and no other row. */
  lemma {:induction false} InChannelCounts(rows: seq<Customer>, o: string)
    ensures forall r :: multiset(InChannel(rows, o))[r] == if r.originUp == Some(o) then multiset(rows)[r] else 0
  {
    if rows != [] {
      InChannelCounts(rows[1..], o);
      assert rows == [rows[0]] + rows[1..];
    }
  }

  /** The group keys: each channel present once, in order of first appearance; missing channels form no group. */
  function Channels(rows: seq<Customer>): (cs: seq<string>)
    ensures Distinct(cs)
    ensures forall o :: o in cs <==> Present(rows, o)
  {
    if rows == [] then []
    else
      var init, last := rows[..|rows| - 1], rows[|rows| - 1];
      var cs := Channels(init);
      assert forall r :: r in rows <==> r in init || r == last by {
        assert rows == init + [last];
      }
      if last.originUp.Some? && last.originUp.value !in cs then cs + [last.originUp.value] else cs
  }

  /** Mean churn of channel `o`. */
  function GroupRate(rows: seq<Customer>, o: string): real {
    ChurnRate(InChannel(rows, o))
  }

  /** One entry per key, in key order, before sorting. */
  function Groups(rows: seq<Customer>, cs: seq<string>): (es: seq<ChannelRate>)
    ensures |es| == |cs|
    ensures forall k :: 0 <= k < |cs| ==> es[k] == ChannelRate(cs[k], GroupRate(rows, cs[k]))
  {
    seq(|cs|, k requires 0 <= k < |cs| => ChannelRate(cs[k], GroupRate(rows, cs[k])))
  }

  /** Ordered from the highest rate down (`ascending=False`). */
  predicate NonIncreasing(es: seq<ChannelRate>) {
    forall i, j :: 0 <= i < j < |es| ==> es[i].rate >= es[j].rate
  }

  /** Places `e` before the first entry whose rate does not exceed its own. */
  function InsertByRate(e: ChannelRate, s: seq<ChannelRate>): (t: seq<ChannelRate>)
    ensures multiset(t) == multiset(s) + multiset{e}
  {
    if s == [] then [e]
    else if e.rate >= s[0].rate then [e] + s
    else
      assert s == [s[0]] + s[1..];
      [s[0]] + InsertByRate(e, s[1..])
  }

  lemma {:induction false} InsertKeepsOrder(e: ChannelRate, s: seq<ChannelRate>)
    requires NonIncreasing(s)
    ensures NonIncreasing(InsertByRate(e, s))
  {
    if s != [] && e.rate < s[0].rate {
      var rest := InsertByRate(e, s[1..]);
      assert NonIncreasing(s[1..]) by {
        forall i, j | 0 <= i < j < |s[1..]| ensures s[1..][i].rate >= s[1..][j].rate {
          assert s[1..][i] == s[i + 1] && s[1..][j] == s[j + 1];
        }
      }
      InsertKeepsOrder(e, s[1..]);
      var t := [s[0]] + rest;
      forall x | x in rest ensures s[0].rate >= x.rate {
        assert x in multiset(rest);
        assert x == e || x in multiset(s[1..]);
        if x != e {
          var k :| 0 <= k < |s[1..]| && s[1..][k] == x;
          assert s[k + 1] == x;
        }
      }
      forall i, j | 0 <= i < j < |t| ensures t[i].rate >= t[j].rate {
        assert t[j] == rest[j - 1];
        if i > 0 {
          assert t[i] == rest[i - 1];
        } else {
          assert rest[j - 1] in rest;
        }
      }
    }
  }

  /** `sort_values("churn", ascending=False)`: a reordering of the entries by non-increasing rate. */
  function SortByRate(es: seq<ChannelRate>): (t: seq<ChannelRate>)
    ensures NonIncreasing(t)
    ensures multiset(t) == multiset(es)
  {
    if es == [] then []
    else
      assert es == [es[0]] + es[1..];
      var sorted := SortByRate(es[1..]);
      InsertKeepsOrder(es[0], sorted);
      InsertByRate(es[0], sorted)
  }

  /** A reordering of a sequence without repetitions has none either. */
  lemma PermutationKeepsDistinct(s: seq<ChannelRate>, t: seq<ChannelRate>)
    requires Distinct(s) && multiset(t) == multiset(s)
    ensures Distinct(t)
  {
    forall i, j | 0 <= i < j < |t| ensures t[i] != t[j] {
      if t[i] == t[j] {
        var x := t[i];
        assert t == t[..j] + [t[j]] + t[j+1..];
        assert x in t[..j];
        assert multiset(t)[x] >= 2 by {
          assert multiset(t) == multiset(t[..j]) + multiset{x} + multiset(t[j+1..]);
        }
        DistinctCountsOnce(s, x);
        assert false;
      }
    }
  }

  lemma {:induction false} DistinctCountsOnce(s: seq<ChannelRate>, x: ChannelRate)
    requires Distinct(s)
    ensures multiset(s)[x] <= 1
  {
    if s != [] {
      assert s == [s[0]] + s[1..];
      assert Distinct(s[1..]) by {
        forall i, j | 0 <= i < j < |s[1..]| ensures s[1..][i] != s[1..][j] {
          assert s[1..][i] == s[i + 1] && s[1..][j] == s[j + 1];
        }
      }
      DistinctCountsOnce(s[1..], x);
      if s[0] == x {
        assert x !in s[1..] by {
          forall k | 0 <= k < |s[1..]| ensures s[1..][k] != x {
            assert s[1..][k] == s[k + 1];
          }
        }
      }
    }
  }

  /** `channel_churn`: the per-channel groups, reordered by non-increasing rate. */
  function ComputeChannelChurn(rows: seq<Customer>): (out: seq<ChannelRate>)
    ensures NonIncreasing(out)
    ensures multiset(out) == multiset(Groups(rows, Channels(rows)))
  {
    SortByRate(Groups(rows, Channels(rows)))
  }

  /**
   * The shape of `channel_churn`: exactly one entry per channel present in
   * the rows, each carrying the mean churn of its (non-empty) group, ordered
   * from the highest rate down. With 0/1 churn flags each rate is the
   * group's share of churned rows, between 0 and 1.
   */
  lemma ChannelChurnShape(rows: seq<Customer>)
    ensures var out := ComputeChannelChurn(rows);
      && NonIncreasing(out)
      && (forall o :: Listed(out, o) <==> Present(rows, o))
      && (forall i, j :: 0 <= i < j < |out| ==> out[i].channel != out[j].channel)
      && (forall k :: 0 <= k < |out| ==>
            |InChannel(rows, out[k].channel)| > 0 && out[k].rate == ChurnRate(InChannel(rows, out[k].channel)))
      && (BinaryChurn(rows) ==> forall k :: 0 <= k < |out| ==>
            var g := InChannel(rows, out[k].channel);
            out[k].rate == ChurnedCount(g) as real / |g| as real && 0.0 <= out[k].rate <= 1.0)
  {
    var cs := Channels(rows);
    var es := Groups(rows, cs);
    var out := ComputeChannelChurn(rows);
    assert Distinct(es) by {
      forall i, j | 0 <= i < j < |es| ensures es[i] != es[j] {
        assert es[i].channel == cs[i] && es[j].channel == cs[j];
      }
    }
    PermutationKeepsDistinct(es, out);
    SameElements(es, out);
    EntriesAreGroups(rows, cs, es, out);
    ChannelsAreKeys(rows, cs, es, out);
    GroupsNonEmpty(rows, cs, out);
    if BinaryChurn(rows) {
      RatesAreShares(rows, out);
    }
  }

  lemma SameElements(s: seq<ChannelRate>, t: seq<ChannelRate>)
    requires multiset(t) == multiset(s)
    ensures forall x :: x in t <==> x in s
  {
    forall x ensures x in t <==> x in s {
      assert x in t <==> x in multiset(t);
      assert x in s <==> x in multiset(s);
    }
  }

  lemma EntriesAreGroups(rows: seq<Customer>, cs: seq<string>, es: seq<ChannelRate>, out: seq<ChannelRate>)
    requires es == Groups(rows, cs)
    requires forall x :: x in out <==> x in es
    requires Distinct(out)
    ensures forall k :: 0 <= k < |out| ==> out[k].channel in cs && out[k].rate == GroupRate(rows, out[k].channel)
    ensures forall i, j :: 0 <= i < j < |out| ==> out[i].channel != out[j].channel
  {
    forall k | 0 <= k < |out| ensures out[k].channel in cs && out[k].rate == GroupRate(rows, out[k].channel) {
      assert out[k] in es;
    }
    forall i, j | 0 <= i < j < |out| ensures out[i].channel != out[j].channel {
      assert out[i] != out[j];
    }
  }

  lemma ChannelsAreKeys(rows: seq<Customer>, cs: seq<string>, es: seq<ChannelRate>, out: seq<ChannelRate>)
    requires cs == Channels(rows) && es == Groups(rows, cs)
    requires forall x :: x in out <==> x in es
    ensures forall o :: Listed(out, o) <==> Present(rows, o)
  {
    forall o ensures Listed(out, o) <==> Present(rows, o) {
      if o in cs {
        KeyListed(cs, es, out, o);
      }
      if Listed(out, o) {
        ListedKey(cs, es, out, o);
      }
    }
  }

  lemma KeyListed(cs: seq<string>, es: seq<ChannelRate>, out: seq<ChannelRate>, o: string)
    requires |es| == |cs| && forall k :: 0 <= k < |cs| ==> es[k].channel == cs[k]
    requires forall x :: x in out <==> x in es
    requires o in cs
    ensures Listed(out, o)
  {
    var i :| 0 <= i < |cs| && cs[i] == o;
    assert es[i] in es;
    var k :| 0 <= k < |out| && out[k] == es[i];
    assert out[k].channel == o;
  }

  lemma ListedKey(cs: seq<string>, es: seq<ChannelRate>, out: seq<ChannelRate>, o: string)
    requires |es| == |cs| && forall k :: 0 <= k < |cs| ==> es[k].channel == cs[k]
    requires forall x :: x in out <==> x in es
    requires Listed(out, o)
    ensures o in cs
  {
    var k :| 0 <= k < |out| && out[k].channel == o;
    assert out[k] in out;
    var i :| 0 <= i < |es| && es[i] == out[k];
    assert cs[i] == o;
  }

  lemma GroupsNonEmpty(rows: seq<Customer>, cs: seq<string>, out: seq<ChannelRate>)
    requires cs == Channels(rows)
    requires forall k :: 0 <= k < |out| ==> out[k].channel in cs
    ensures forall k :: 0 <= k < |out| ==> |InChannel(rows, out[k].channel)| > 0
  {
  }

  lemma RatesAreShares(rows: seq<Customer>, out: seq<ChannelRate>)
    requires BinaryChurn(rows)
    requires forall k :: 0 <= k < |out| ==>
      |InChannel(rows, out[k].channel)| > 0 && out[k].rate == ChurnRate(InChannel(rows, out[k].channel))
    ensures forall k :: 0 <= k < |out| ==>
      var g := InChannel(rows, out[k].channel);
      out[k].rate == ChurnedCount(g) as real / |g| as real && 0.0 <= out[k].rate <= 1.0
  {
    forall k | 0 <= k < |out|
      ensures var g := InChannel(rows, out[k].channel);
        out[k].rate == ChurnedCount(g) as real / |g| as real && 0.0 <= out[k].rate <= 1.0
    {
      ChurnRateIsChurnedShare(InChannel(rows, out[k].channel));
    }
  }
}
