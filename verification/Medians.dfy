/** The median the light client takes over a header's last eleven times
    (`Headers::Median`, src/btclight.cpp): the middle of the sorted window, the
    upper of the two when the window is even. */
module Medians {
  import opened Sorting

  function Median(w: seq<int>): int
    requires w != []
  {
    SortCorrect(w);
    Sort(w)[|w| / 2]
  }

  /** How many entries are at least `m`. */
  function AtLeast(s: seq<int>, m: int): nat {
    if s == [] then 0 else (if s[0] >= m then 1 else 0) + AtLeast(s[1..], m)
  }

  lemma {:induction false} AtLeastConcat(a: seq<int>, b: seq<int>, m: int)
    ensures AtLeast(a + b, m) == AtLeast(a, m) + AtLeast(b, m)
  {
    if a == [] {
      assert a + b == b;
    } else {
      AtLeastConcat(a[1..], b, m);
      assert (a + b)[1..] == a[1..] + b;
    }
  }

  lemma {:induction false} AtLeastInsert(x: int, s: seq<int>, m: int)
    ensures AtLeast(Insert(x, s), m) == AtLeast(s, m) + if x >= m then 1 else 0
  {
    if s == [] || x <= s[0] {
      assert ([x] + s)[1..] == s;
    } else {
      AtLeastInsert(x, s[1..], m);
      assert ([s[0]] + Insert(x, s[1..]))[1..] == Insert(x, s[1..]);
    }
  }

  lemma {:induction false} AtLeastSort(s: seq<int>, m: int)
    ensures AtLeast(Sort(s), m) == AtLeast(s, m)
  {
    if s != [] {
      AtLeastSort(s[1..], m);
      AtLeastInsert(s[0], Sort(s[1..]), m);
    }
  }

  lemma {:induction false} AtLeastBound(s: seq<int>, m: int)
    ensures AtLeast(s, m) <= |s|
  {
    if s != [] {
      AtLeastBound(s[1..], m);
    }
  }

  lemma {:induction false} AtLeastAll(s: seq<int>, m: int)
    requires forall i :: 0 <= i < |s| ==> s[i] >= m
    ensures AtLeast(s, m) == |s|
  {
    if s != [] {
      AtLeastAll(s[1..], m);
    }
  }

  lemma {:induction false} AtLeastNone(s: seq<int>, m: int)
    requires forall i :: 0 <= i < |s| ==> s[i] < m
    ensures AtLeast(s, m) == 0
  {
    if s != [] {
      AtLeastNone(s[1..], m);
    }
  }

  /** In sorted order, the entry at `k` reaches `m` exactly when all but at most `k`
      of the entries do. */
  lemma SortedAtLeast(s: seq<int>, k: nat, m: int)
    requires Sorted(s) && k < |s|
    ensures s[k] >= m <==> AtLeast(s, m) >= |s| - k
  {
    if s[k] >= m {
      AtLeastConcat(s[..k], s[k..], m);
      assert s == s[..k] + s[k..];
      AtLeastAll(s[k..], m);
    } else {
      AtLeastConcat(s[..k + 1], s[k + 1..], m);
      assert s == s[..k + 1] + s[k + 1..];
      AtLeastNone(s[..k + 1], m);
      AtLeastBound(s[k + 1..], m);
    }
  }

  lemma MedianAtLeast(w: seq<int>, m: int)
    requires w != []
    ensures Median(w) >= m <==> AtLeast(w, m) >= |w| - |w| / 2
  {
    SortCorrect(w);
    SortedAtLeast(Sort(w), |w| / 2, m);
    AtLeastSort(w, m);
  }

  /** The median never goes back when a newer, larger time joins the window... */
  lemma GrowingMedian(w: seq<int>, t: int)
    requires w != [] && t > Median(w)
    ensures Median([t] + w) >= Median(w)
  {
    var m := Median(w);
    MedianAtLeast(w, m);
    MedianAtLeast([t] + w, m);
    assert ([t] + w)[1..] == w;
  }

  /** ... nor when the window, full at an odd size, drops its oldest for it. */
  lemma SlidingMedian(w: seq<int>, t: int)
    requires |w| % 2 == 1 && t > Median(w)
    ensures Median([t] + w[..|w| - 1]) >= Median(w)
  {
    var m, n := Median(w), |w| - 1;
    var next := [t] + w[..n];
    MedianAtLeast(w, m);
    MedianAtLeast(next, m);
    assert next[1..] == w[..n];
    AtLeastConcat(w[..n], w[n..], m);
    AtLeastBound(w[n..], m);
    assert w == w[..n] + w[n..];
  }
}
