/** Sorting and the 95th percentile, as health observations use them. */
module Stats {
  /** What a loop over a sequence has seen grows by the next element. */
  lemma TakeNext<T>(s: seq<T>, i: nat)
    requires i < |s|
    ensures s[..i + 1] == s[..i] + [s[i]] && s[..i + 1][..i] == s[..i]
  {
  }

  predicate Sorted(s: seq<int>) {
    forall i, j :: 0 <= i < j < |s| ==> s[i] <= s[j]
  }

  function Insert(x: int, s: seq<int>): (r: seq<int>)
    requires Sorted(s)
    ensures |r| == |s| + 1 && r[0] == (if s == [] || x <= s[0] then x else s[0])
    ensures Sorted(r) && multiset(r) == multiset{x} + multiset(s)
  {
    if s == [] || x <= s[0] then [x] + s
    else
      assert s == [s[0]] + s[1..];
      [s[0]] + Insert(x, s[1..])
  }

  function Sort(s: seq<int>): (r: seq<int>)
    ensures Sorted(r) && multiset(r) == multiset(s)
  {
    if s == [] then []
    else
      assert s == [s[0]] + s[1..];
      Insert(s[0], Sort(s[1..]))
  }

  lemma SameLength(s: seq<int>)
    ensures |Sort(s)| == |s|
  {
    assert |multiset(Sort(s))| == |multiset(s)|;
  }

  lemma EndsAreExtreme(s: seq<int>, x: int)
    requires Sorted(s) && x in multiset(s)
    ensures s != [] && s[0] <= x <= s[|s| - 1]
  {
    assert x in s;
  }

  lemma WithoutFirst(s: seq<int>)
    requires s != []
    ensures multiset(s[1..]) == multiset(s) - multiset{s[0]}
  {
    assert s == [s[0]] + s[1..];
  }

  lemma FirstsAgree(s: seq<int>, t: seq<int>)
    requires Sorted(s) && Sorted(t) && multiset(s) == multiset(t) && s != [] && t != []
    ensures s[0] == t[0]
    ensures multiset(s[1..]) == multiset(t[1..])
  {
    assert s[0] in multiset(s) && t[0] in multiset(t);
    EndsAreExtreme(t, s[0]);
    EndsAreExtreme(s, t[0]);
    WithoutFirst(s);
    WithoutFirst(t);
  }

  /** A sorted sequence is determined by its elements. */
  lemma {:induction false} SortedUnique(s: seq<int>, t: seq<int>)
    requires Sorted(s) && Sorted(t) && |s| == |t| && multiset(s) == multiset(t)
    ensures s == t
    decreases |s|
  {
    if s == [] {
    } else {
      FirstsAgree(s, t);
      SortedUnique(s[1..], t[1..]);
    }
  }

  /** The rank the code takes: 95 percent of the length rounded down, but never past the end. */
  function P95Rank(n: nat): (r: nat)
    requires n > 0
    ensures r < n && 100 * r <= 95 * n < 100 * (r + 1)
    ensures n <= 20 ==> r == n - 1
  {
    95 * n / 100
  }

  function P95(latencies: seq<int>): int
    requires latencies != []
  {
    SameLength(latencies);
    Sort(latencies)[P95Rank(|latencies|)]
  }

  lemma P95OrderFree(s: seq<int>, t: seq<int>)
    requires s != [] && multiset(s) == multiset(t)
    ensures t != [] && P95(s) == P95(t)
  {
    assert s[0] in multiset(t);
    SameLength(s);
    SameLength(t);
    assert |multiset(s)| == |multiset(t)|;
    SortedUnique(Sort(s), Sort(t));
  }

  /** For at most twenty samples the reported percentile is the maximum. */
  lemma P95IsMax(s: seq<int>)
    requires 1 <= |s| <= 20
    ensures P95(s) in s && forall i :: 0 <= i < |s| ==> s[i] <= P95(s)
  {
    SameLength(s);
    var r := Sort(s);
    assert r[|s| - 1] in multiset(r);
    forall i | 0 <= i < |s| ensures s[i] <= P95(s) {
      assert s[i] in multiset(s);
      EndsAreExtreme(r, s[i]);
    }
  }
}
