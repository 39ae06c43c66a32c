/** Merkle trees in which a level of odd size pairs its last hash with itself: the
    transaction tree that `VerifyBlock` checks (src/btclight.cpp), and the tree over
    unspent outputs (scripts/bitflash_chain.py).  `join` is the hash of a pair. */
module Merkle {

  /** The two hashes under position `i` of the next level. */
  function Pair<H>(layer: seq<H>, i: nat): (H, H)
    requires 2 * i < |layer|
  {
    (layer[2 * i], if 2 * i + 1 < |layer| then layer[2 * i + 1] else layer[2 * i])
  }

  function Next<H>(join: (H, H) -> H, layer: seq<H>): (n: seq<H>)
    ensures |n| == (|layer| + 1) / 2
    ensures forall i :: 0 <= i < |n| ==> n[i] == join(Pair(layer, i).0, Pair(layer, i).1)
  {
    seq((|layer| + 1) / 2, i requires 0 <= i < (|layer| + 1) / 2 => join(Pair(layer, i).0, Pair(layer, i).1))
  }

  /** How many levels stand above `n` leaves. */
  function Height(n: nat): nat {
    if n <= 1 then 0 else 1 + Height((n + 1) / 2)
  }

  function Root<H>(join: (H, H) -> H, layer: seq<H>): H
    requires layer != []
    decreases |layer|
  {
    if |layer| == 1 then layer[0] else Root(join, Next(join, layer))
  }

  function Level<H>(join: (H, H) -> H, layer: seq<H>, k: nat): seq<H>
    decreases k
  {
    if k == 0 then layer else Level(join, Next(join, layer), k - 1)
  }

  lemma {:induction false} LevelNext<H>(join: (H, H) -> H, layer: seq<H>, k: nat)
    ensures Level(join, layer, k + 1) == Next(join, Level(join, layer, k))
    decreases k
  {
    if k > 0 {
      LevelNext(join, Next(join, layer), k - 1);
    }
  }

  /** The top level is the root alone, and every level is inhabited. */
  lemma {:induction false} LevelTop<H>(join: (H, H) -> H, layer: seq<H>)
    requires layer != []
    ensures Level(join, layer, Height(|layer|)) == [Root(join, layer)]
    decreases |layer|
  {
    if |layer| > 1 {
      LevelTop(join, Next(join, layer));
    }
  }

  lemma {:induction false} LevelInhabited<H>(join: (H, H) -> H, layer: seq<H>, k: nat)
    requires layer != []
    ensures Level(join, layer, k) != []
    decreases k
  {
    if k > 0 {
      LevelInhabited(join, Next(join, layer), k - 1);
    }
  }

  // ---- no equal neighbours -----------------------------------------------------

  ghost predicate NoTwins<H>(layer: seq<H>) {
    forall i :: 0 <= i < |layer| / 2 ==> Pair(layer, i).0 != Pair(layer, i).1
  }

  /** No level has two equal hashes side by side in a pair. */
  ghost predicate Distinct<H>(join: (H, H) -> H, layer: seq<H>)
    decreases |layer|
  {
    |layer| <= 1 || (NoTwins(layer) && Distinct(join, Next(join, layer)))
  }

  /** The check `VerifyBlock` makes once the transactions are parsed. */
  method VerifyTree<H(==)>(join: (H, H) -> H, txids: seq<H>, merkle: H) returns (ok: bool)
    ensures ok <==> txids != [] && Distinct(join, txids) && Root(join, txids) == merkle
  {
    var tree := txids;
    while |tree| > 1
      invariant tree == [] <==> txids == []
      invariant txids != [] ==> Root(join, tree) == Root(join, txids)
      invariant Distinct(join, tree) <==> Distinct(join, txids)
      decreases |tree|
    {
      var next := [];
      var i := 0;
      while i < |tree|
        invariant 0 <= i <= |tree| + 1 && i % 2 == 0 && |next| == i / 2
        invariant forall k :: 0 <= k < |next| ==> next[k] == Next(join, tree)[k]
        invariant forall k :: 0 <= k < |next| && k < |tree| / 2 ==> Pair(tree, k).0 != Pair(tree, k).1
      {
        if i + 1 < |tree| && tree[i] == tree[i + 1] {
          assert Pair(tree, i / 2).0 == Pair(tree, i / 2).1;
          return false;
        }
        next := next + [join(tree[i], tree[if i + 1 < |tree| then i + 1 else |tree| - 1])];
        i := i + 2;
      }
      assert next == Next(join, tree);
      tree := next;
    }
    ok := tree != [] && tree[0] == merkle;
  }

  // ---- one list per root --------------------------------------------------------

  /** The pairs hashed on the way to the root. */
  ghost function Hashed<H>(join: (H, H) -> H, layer: seq<H>): set<(H, H)>
    decreases |layer|
  {
    if |layer| <= 1 then {}
    else (set i | 0 <= i < (|layer| + 1) / 2 :: Pair(layer, i)) + Hashed(join, Next(join, layer))
  }

  /** No two of these pairs collide. */
  ghost predicate CollisionFree<H>(join: (H, H) -> H, s: set<(H, H)>) {
    forall p, q :: p in s && q in s && join(p.0, p.1) == join(q.0, q.1) ==> p == q
  }

  ghost predicate NotHashes<H>(join: (H, H) -> H, s: set<(H, H)>, leaves: seq<H>) {
    forall p, i :: p in s && 0 <= i < |leaves| ==> leaves[i] != join(p.0, p.1)
  }

  lemma PairHashed<H>(join: (H, H) -> H, layer: seq<H>, i: nat)
    requires |layer| > 1 && 2 * i < |layer|
    ensures Pair(layer, i) in Hashed(join, layer)
  {
  }

  lemma HashedNext<H>(join: (H, H) -> H, layer: seq<H>)
    requires |layer| > 1
    ensures Hashed(join, Next(join, layer)) <= Hashed(join, layer)
  {
  }

  /** Without twins, a level can be read back from the one above it. */
  lemma NextInjective<H>(join: (H, H) -> H, s: set<(H, H)>, x: seq<H>, y: seq<H>)
    requires |x| > 1 && |y| > 1 && NoTwins(x) && NoTwins(y)
    requires CollisionFree(join, s) && Hashed(join, x) <= s && Hashed(join, y) <= s
    requires Next(join, x) == Next(join, y)
    ensures x == y
  {
    var n := (|x| + 1) / 2;
    assert |Next(join, x)| == |Next(join, y)|;
    forall i | 0 <= i < n
      ensures Pair(x, i) == Pair(y, i)
    {
      PairHashed(join, x, i);
      PairHashed(join, y, i);
      assert Next(join, x)[i] == Next(join, y)[i];
    }
    SamePairs(x, y);
  }

  lemma SamePairs<H>(x: seq<H>, y: seq<H>)
    requires |x| > 1 && (|x| + 1) / 2 == (|y| + 1) / 2 && NoTwins(x) && NoTwins(y)
    requires forall i :: 0 <= i < (|x| + 1) / 2 ==> Pair(x, i) == Pair(y, i)
    ensures x == y
  {
    var n := (|x| + 1) / 2;
    assert Pair(x, n - 1) == Pair(y, n - 1);
    assert |x| % 2 == 0 <==> Pair(x, n - 1).0 != Pair(x, n - 1).1;
    assert |y| % 2 == 0 <==> Pair(y, n - 1).0 != Pair(y, n - 1).1;
    forall k | 0 <= k < |x|
      ensures x[k] == y[k]
    {
      assert Pair(x, k / 2) == Pair(y, k / 2);
    }
  }

  lemma {:induction false} LevelKeeps<H>(join: (H, H) -> H, s: set<(H, H)>, y: seq<H>, k: nat)
    requires y != [] && Distinct(join, y) && Hashed(join, y) <= s && k <= Height(|y|)
    ensures var l := Level(join, y, k);
            && Distinct(join, l) && Hashed(join, l) <= s && Height(|l|) == Height(|y|) - k
    decreases k
  {
    if k > 0 {
      LevelKeeps(join, s, Next(join, y), k - 1);
    }
  }

  /** Two trees with one root agree level by level from the top. */
  lemma {:induction false} Aligned<H>(join: (H, H) -> H, s: set<(H, H)>, x: seq<H>, y: seq<H>)
    requires x != [] && y != [] && Distinct(join, x) && Distinct(join, y)
    requires CollisionFree(join, s) && Hashed(join, x) <= s && Hashed(join, y) <= s
    requires Root(join, x) == Root(join, y) && Height(|x|) <= Height(|y|)
    ensures x == Level(join, y, Height(|y|) - Height(|x|))
    decreases |x|
  {
    hide CollisionFree, NoTwins, Hashed;
    var a, b := Height(|x|), Height(|y|);
    if |x| == 1 {
      LevelTop(join, y);
    } else {
      HashedNext(join, x);
      Aligned(join, s, Next(join, x), y);
      LevelNext(join, y, b - a);
      LevelKeeps(join, s, y, b - a);
      NextInjective(join, s, x, Level(join, y, b - a));
    }
  }

  /** Leaves are never the level above anything. */
  lemma LeavesAreLowest<H>(join: (H, H) -> H, s: set<(H, H)>, x: seq<H>, l: seq<H>)
    requires |l| > 1 && Hashed(join, l) <= s && NotHashes(join, s, x)
    ensures x != Next(join, l)
  {
    PairHashed(join, l, 0);
    var p := Pair(l, 0);
    assert p in s;
    assert Next(join, l)[0] == join(p.0, p.1);
  }

  lemma SameHeight<H>(join: (H, H) -> H, s: set<(H, H)>, x: seq<H>, y: seq<H>)
    requires x != [] && y != [] && Distinct(join, x) && Distinct(join, y)
    requires CollisionFree(join, s) && Hashed(join, x) <= s && Hashed(join, y) <= s
    requires NotHashes(join, s, x)
    requires Root(join, x) == Root(join, y) && Height(|x|) <= Height(|y|)
    ensures x == y
  {
    hide CollisionFree, NoTwins, NotHashes, Hashed;
    var k := Height(|y|) - Height(|x|);
    Aligned(join, s, x, y);
    if k > 0 {
      LevelNext(join, y, k - 1);
      LevelKeeps(join, s, y, k - 1);
      LeavesAreLowest(join, s, x, Level(join, y, k - 1));
    }
  }

  /** A block's root commits to one list of transactions: two lists that both pass the
      check against it are the same list. */
  lemma OneListPerRoot<H>(join: (H, H) -> H, s: set<(H, H)>, x: seq<H>, y: seq<H>)
    requires x != [] && y != [] && Distinct(join, x) && Distinct(join, y)
    requires CollisionFree(join, s) && Hashed(join, x) <= s && Hashed(join, y) <= s
    requires NotHashes(join, s, x) && NotHashes(join, s, y)
    requires Root(join, x) == Root(join, y)
    ensures x == y
  {
    if Height(|x|) <= Height(|y|) {
      SameHeight(join, s, x, y);
    } else {
      SameHeight(join, s, y, x);
    }
  }

  /** Why the equal-neighbour rule is there: repeating the last hash of an odd level
      keeps the root, and only that rule refuses the longer list. */
  lemma DuplicatedTail<H>(join: (H, H) -> H, x: seq<H>)
    requires |x| > 1 && |x| % 2 == 1
    ensures Root(join, x + [x[|x| - 1]]) == Root(join, x)
    ensures !Distinct(join, x + [x[|x| - 1]])
  {
    var y := x + [x[|x| - 1]];
    assert Next(join, x) == Next(join, y) by {
      forall i | 0 <= i < (|x| + 1) / 2
        ensures Pair(x, i) == Pair(y, i)
      {
      }
    }
    assert Pair(y, |x| / 2).0 == Pair(y, |x| / 2).1;
  }
}
