/** Strings in the order of their characters: what `sorted` does with dictionary keys and
    what a map of strings is walked in. */
module Texts {

  /** `a` comes strictly before `b`. */
  predicate Before(a: string, b: string) {
    b != "" && (a == "" || a[0] < b[0] || (a[0] == b[0] && Before(a[1..], b[1..])))
  }

  lemma {:induction false} BeforeTotal(a: string, b: string)
    ensures a == b || Before(a, b) || Before(b, a)
    ensures !(Before(a, b) && Before(b, a)) && (a == b ==> !Before(a, b))
    decreases |a|
  {
    if a != "" && b != "" && a[0] == b[0] {
      BeforeTotal(a[1..], b[1..]);
      assert a == [a[0]] + a[1..] && b == [b[0]] + b[1..];
    }
  }

  lemma {:induction false} BeforeTransitive(a: string, b: string, c: string)
    requires Before(a, b) && Before(b, c)
    ensures Before(a, c)
    decreases |a|
  {
    if a != "" && a[0] == b[0] == c[0] {
      BeforeTransitive(a[1..], b[1..], c[1..]);
    }
  }

  /** Ascending, so without repetitions. */
  ghost predicate Ordered(s: seq<string>) {
    forall i, j :: 0 <= i < j < |s| ==> Before(s[i], s[j])
  }

  ghost predicate Lists(s: seq<string>, keys: set<string>) {
    Ordered(s) && forall k :: k in s <==> k in keys
  }

  /** A set has one ordered list. */
  lemma {:induction false} OneList(s: seq<string>, t: seq<string>, keys: set<string>)
    requires Lists(s, keys) && Lists(t, keys)
    ensures s == t
    decreases |s|
  {
    assert s != [] ==> s[0] in keys;
    assert t != [] ==> t[0] in keys;
    if s != [] && t != [] {
      LeastFirst(s, t, keys);
      LeastFirst(t, s, keys);
      BeforeTotal(s[0], t[0]);
      Rest(s, keys);
      Rest(t, keys);
      OneList(s[1..], t[1..], keys - {s[0]});
      assert s == [s[0]] + s[1..] && t == [t[0]] + t[1..];
    }
  }

  lemma LeastFirst(s: seq<string>, t: seq<string>, keys: set<string>)
    requires Lists(s, keys) && Lists(t, keys) && s != [] && t != []
    ensures s[0] == t[0] || Before(s[0], t[0])
  {
    assert t[0] in s;
    var i :| 0 <= i < |s| && s[i] == t[0];
  }

  lemma Rest(s: seq<string>, keys: set<string>)
    requires Lists(s, keys) && s != []
    ensures Lists(s[1..], keys - {s[0]})
  {
    hide Before;
    assert s == [s[0]] + s[1..];
    forall k | k in s[1..] ensures k != s[0] {
      var i :| 0 <= i < |s[1..]| && s[1..][i] == k;
      assert Before(s[0], s[i + 1]);
      BeforeTotal(s[0], k);
    }
  }

  /** Where `x` belongs in an ordered list. */
  method Place(s: seq<string>, x: string) returns (r: seq<string>)
    requires Ordered(s) && x !in s
    ensures Ordered(r) && forall k :: k in r <==> k == x || k in s
  {
    hide Before;
    var i := 0;
    while i < |s| && Before(s[i], x)
      invariant 0 <= i <= |s| && forall j :: 0 <= j < i ==> Before(s[j], x)
    {
      i := i + 1;
    }
    r := s[..i] + [x] + s[i..];
    PlacedAt(s, x, i);
  }

  lemma PlacedAt(s: seq<string>, x: string, i: nat)
    requires Ordered(s) && x !in s && i <= |s|
    requires forall j :: 0 <= j < i ==> Before(s[j], x)
    requires i < |s| ==> !Before(s[i], x)
    ensures Ordered(s[..i] + [x] + s[i..])
    ensures forall k :: k in s[..i] + [x] + s[i..] <==> k == x || k in s
  {
    hide Before;
    forall j | i <= j < |s| ensures Before(x, s[j]) {
      BeforeTotal(s[i], x);
      assert s[i] in s;
      if j > i {
        BeforeTransitive(x, s[i], s[j]);
      }
    }
    Between(s, x, i);
    assert s == s[..i] + s[i..];
  }

  lemma Between(s: seq<string>, x: string, i: nat)
    requires Ordered(s) && i <= |s|
    requires forall j :: 0 <= j < i ==> Before(s[j], x)
    requires forall j :: i <= j < |s| ==> Before(x, s[j])
    ensures Ordered(s[..i] + [x] + s[i..])
  {
    hide Before;
    var r := s[..i] + [x] + s[i..];
    assert forall j :: 0 <= j < |r| ==> r[j] == if j < i then s[j] else if j == i then x else s[j - 1];
  }

  method SortedKeys(keys: set<string>) returns (s: seq<string>)
    ensures Lists(s, keys)
  {
    hide Ordered;
    s := [];
    NothingOrdered();
    var todo := keys;
    while todo != {}
      invariant todo <= keys && Ordered(s) && forall k :: k in s <==> k in keys - todo
      decreases |todo|
    {
      var x :| x in todo;
      s := Place(s, x);
      todo := todo - {x};
    }
  }

  lemma NothingOrdered()
    ensures Ordered([])
  {
  }
}
