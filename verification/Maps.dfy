/** Sizes of maps. */
module Maps {

  lemma {:induction false} Smaller<K, V>(m: map<K, V>, n: map<K, V>)
    requires n.Keys <= m.Keys
    ensures |n| <= |m|
    decreases |n|
  {
    if n != map[] {
      var k :| k in n;
      Smaller(m - {k}, n - {k});
    }
  }
}
