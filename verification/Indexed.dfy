/** Lists filed under keys, with one set of ids kept beside them as an index: the shape
    that the chat's history and its outbox share (src/btfchatlog.cpp). */
module Indexed {

  datatype Item<V> = Item(id: string, value: V)

  type Lists<K, V> = map<K, seq<Item<V>>>

  /** No id stands twice. */
  ghost predicate NoDup<V>(s: seq<Item<V>>) {
    forall i, j :: 0 <= i < j < |s| ==> s[i].id != s[j].id
  }

  function IdsOf<V>(s: seq<Item<V>>): set<string> { set i | 0 <= i < |s| :: s[i].id }

  function ListOf<K, V>(m: Lists<K, V>, k: K): seq<Item<V>> { if k in m then m[k] else [] }

  ghost function IdMap<K, V>(m: Lists<K, V>): map<K, set<string>> { map k | k in m :: IdsOf(m[k]) }

  /** The sets are disjoint, and `ids` is their union. */
  ghost predicate Parts<K(!new)>(p: map<K, set<string>>, ids: set<string>) {
    && (forall k, l, x :: k in p && l in p && x in p[k] && x in p[l] ==> k == l)
    && (forall k, x :: k in p && x in p[k] ==> x in ids)
    && (forall x :: x in ids ==> Somewhere(p, x))
  }

  ghost predicate Somewhere<K(!new)>(p: map<K, set<string>>, x: string) {
    exists k :: k in p && x in p[k]
  }

  /** No id stands twice, neither in one list nor in two, and the index is the set of ids. */
  ghost predicate IndexOk<K(!new), V>(m: Lists<K, V>, ids: set<string>) {
    (forall k :: k in m ==> NoDup(m[k])) && Parts(IdMap(m), ids)
  }

  lemma PartsPut<K(!new)>(p: map<K, set<string>>, ids: set<string>, k: K, was: set<string>, put: set<string>)
    requires Parts(p, ids) && was == (if k in p then p[k] else {}) && put !! (ids - was)
    ensures Parts(p[k := put], ids - was + put)
    ensures Parts(p - {k}, ids - was)
  {
    var q, all := p[k := put], ids - was + put;
    forall x | x in all ensures Somewhere(q, x) {
      if x in put {
        assert k in q && x in q[k];
      } else {
        var l :| l in p && x in p[l];
        assert l in q && x in q[l];
      }
    }
    forall x | x in ids - was ensures Somewhere(p - {k}, x) {
      var l :| l in p && x in p[l];
      assert l in p - {k} && x in (p - {k})[l];
    }
  }

  /** One list put in the place of another: the index loses the old ids and gains the new. */
  lemma ReplaceOk<K(!new), V>(m: Lists<K, V>, ids: set<string>, k: K, s: seq<Item<V>>)
    requires IndexOk(m, ids) && NoDup(s) && IdsOf(s) !! (ids - IdsOf(ListOf(m, k)))
    ensures IndexOk(m[k := s], ids - IdsOf(ListOf(m, k)) + IdsOf(s))
    ensures IndexOk(m - {k}, ids - IdsOf(ListOf(m, k)))
  {
    PartsPut(IdMap(m), ids, k, IdsOf(ListOf(m, k)), IdsOf(s));
    assert IdMap(m[k := s]) == IdMap(m)[k := IdsOf(s)];
    assert IdMap(m - {k}) == IdMap(m) - {k};
  }

  lemma InIndex<K(!new), V>(m: Lists<K, V>, ids: set<string>, k: K)
    requires IndexOk(m, ids)
    ensures IdsOf(ListOf(m, k)) <= ids
  {
    if k in m {
      assert IdMap(m)[k] == IdsOf(m[k]);
    }
  }

  lemma PushIds<V>(s: seq<Item<V>>, e: Item<V>)
    ensures IdsOf(s + [e]) == IdsOf(s) + {e.id}
  {
    var t := s + [e];
    assert forall i :: 0 <= i < |s| ==> t[i] == s[i];
    assert t[|s|] == e;
    forall x ensures x in IdsOf(t) <==> x in IdsOf(s) + {e.id} {
      if x in IdsOf(s) {
        var i :| 0 <= i < |s| && s[i].id == x;
        assert t[i].id == x;
      }
    }
  }

  /** A new item at the end of a list. */
  lemma PushOk<K(!new), V>(m: Lists<K, V>, ids: set<string>, k: K, e: Item<V>)
    requires IndexOk(m, ids) && e.id !in ids
    ensures IndexOk(m[k := ListOf(m, k) + [e]], ids + {e.id})
    ensures NoDup(ListOf(m, k) + [e]) && IdsOf(ListOf(m, k) + [e]) == IdsOf(ListOf(m, k)) + {e.id}
  {
    var s := ListOf(m, k);
    InIndex(m, ids, k);
    PushIds(s, e);
    assert forall i :: 0 <= i < |s| ==> s[i].id in IdsOf(s);
    ReplaceOk(m, ids, k, s + [e]);
    assert ids - IdsOf(s) + IdsOf(s + [e]) == ids + {e.id};
  }

  /** One item of a list without duplicates taken out. */
  lemma CutIds<V>(s: seq<Item<V>>, i: nat)
    requires i < |s| && NoDup(s)
    ensures NoDup(s[..i] + s[i + 1..]) && IdsOf(s[..i] + s[i + 1..]) == IdsOf(s) - {s[i].id}
  {
    var t := s[..i] + s[i + 1..];
    assert forall j :: 0 <= j < |t| ==> t[j] == s[if j < i then j else j + 1];
    forall x ensures x in IdsOf(t) <==> x in IdsOf(s) && x != s[i].id {
      if x in IdsOf(s) && x != s[i].id {
        var j :| 0 <= j < |s| && s[j].id == x;
        assert t[if j < i then j else j - 1] == s[j];
      }
    }
  }

  lemma CutOk<K(!new), V>(m: Lists<K, V>, ids: set<string>, k: K, i: nat)
    requires IndexOk(m, ids) && k in m && i < |m[k]|
    ensures IndexOk(m[k := m[k][..i] + m[k][i + 1..]], ids - {m[k][i].id})
    ensures |m[k]| == 1 ==> IndexOk(m - {k}, ids - {m[k][i].id})
  {
    var s := m[k];
    InIndex(m, ids, k);
    CutIds(s, i);
    ReplaceOk(m, ids, k, s[..i] + s[i + 1..]);
    assert ids - IdsOf(s) + IdsOf(s[..i] + s[i + 1..]) == ids - {s[i].id};
    if |s| == 1 {
      assert IdsOf(s) == {s[i].id};
    }
  }

  // ---- sizes ------------------------------------------------------------------------------

  ghost function Total<K, V>(m: Lists<K, V>): nat {
    if m == map[] then 0 else var k :| k in m; |m[k]| + Total(m - {k})
  }

  lemma {:induction false} TotalAt<K, V>(m: Lists<K, V>, k: K)
    requires k in m
    ensures Total(m) == |m[k]| + Total(m - {k})
    decreases |m|
  {
    var j :| j in m && Total(m) == |m[j]| + Total(m - {j});
    if j != k {
      TotalAt(m - {j}, k);
      TotalAt(m - {k}, j);
      assert (m - {j}) - {k} == (m - {k}) - {j};
    }
  }

  lemma TotalPut<K, V>(m: Lists<K, V>, k: K, s: seq<Item<V>>)
    ensures Total(m[k := s]) == Total(m) - |ListOf(m, k)| + |s|
    ensures Total(m - {k}) == Total(m) - |ListOf(m, k)|
  {
    TotalAt(m[k := s], k);
    assert m[k := s] - {k} == m - {k};
    if k in m {
      TotalAt(m, k);
    } else {
      assert m - {k} == m;
    }
  }
}
