/** statistics.median over exact reals: sort, then take the middle (or the mean of the two middles). */
module Stats {

  predicate SortedAsc(s: seq<real>) {
    forall i, j :: 0 <= i < j < |s| ==> s[i] <= s[j]
  }

  function Insert(v: real, s: seq<real>): (r: seq<real>)
    requires SortedAsc(s)
    ensures SortedAsc(r)
    ensures multiset(r) == multiset(s) + multiset{v}
    ensures |r| == |s| + 1
  {
    if |s| == 0 then [v]
    else if v <= s[0] then [v] + s
    else
      var rest := Insert(v, s[1..]);
      assert s == [s[0]] + s[1..];
      assert forall k :: 0 <= k < |rest| ==> rest[k] in multiset(s[1..]) + multiset{v};
      [s[0]] + rest
  }

  /** sorted(s): the ascending permutation of s. */
  function Sort(s: seq<real>): (r: seq<real>)
    ensures SortedAsc(r)
    ensures multiset(r) == multiset(s)
    ensures |r| == |s|
  {
    if |s| == 0 then []
    else
      assert s == [s[0]] + s[1..];
      Insert(s[0], Sort(s[1..]))
  }

  function Median(s: seq<real>): real
    requires |s| > 0
  {
    var d := Sort(s);
    var n := |d|;
    if n % 2 == 1 then d[n / 2] else (d[n / 2 - 1] + d[n / 2]) / 2.0
  }

  /** The median lies within any open interval that holds every element. */
  lemma MedianWithin(s: seq<real>, lo: real, hi: real)
    requires |s| > 0
    requires forall i :: 0 <= i < |s| ==> lo < s[i] < hi
    ensures lo < Median(s) < hi
  {
    var d := Sort(s);
    forall k | 0 <= k < |d|
      ensures lo < d[k] < hi
    {
      assert d[k] in multiset(d);
      assert d[k] in multiset(s);
      var i :| 0 <= i < |s| && s[i] == d[k];
    }
  }
}
