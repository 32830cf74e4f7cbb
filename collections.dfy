/**
 * Small sequence vocabulary shared by the stages of the churn dashboard:
 * a missing cell, "no element twice" and "obtained by deleting rows".
 */
module Collections {

  /** A dataframe cell that may be missing (pandas shows it as NaN or NaT). */
  datatype Option<T> = None | Some(value: T)

  /** No element occurs twice in `s`. */
  predicate Distinct<T(==)>(s: seq<T>) {
    forall i, j :: 0 <= i < j < |s| ==> s[i] != s[j]
  }

  /**
   * `a` is what remains of `b` after deleting some of its elements: the
   * order of `b` is kept and nothing is added, altered or repeated.
   */
  predicate IsSubsequence<T(==)>(a: seq<T>, b: seq<T>)
    decreases |b|
  {
    if a == [] then true
    else if b == [] then false
    else (a[0] == b[0] && IsSubsequence(a[1..], b[1..])) || IsSubsequence(a, b[1..])
  }

  /** A subsequence is no longer than its source and takes no element more often than it occurs there. */
  lemma {:induction false} SubsequenceIsSmaller<T>(a: seq<T>, b: seq<T>)
    requires IsSubsequence(a, b)
    ensures |a| <= |b|
    ensures multiset(a) <= multiset(b)
  {
    if a == [] {
    } else if a[0] == b[0] && IsSubsequence(a[1..], b[1..]) {
      SubsequenceIsSmaller(a[1..], b[1..]);
      assert a == [a[0]] + a[1..];
      assert b == [b[0]] + b[1..];
    } else {
      SubsequenceIsSmaller(a, b[1..]);
      assert b == [b[0]] + b[1..];
    }
  }
}
