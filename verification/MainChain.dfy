/** The choice of the main chain among the blocks in the files (`select_main_chain`,
    scripts/bitflash_chain.py): the longest path from genesis, the smallest tip hash
    among equals.  A hash is a number, ordered as its hex text is; of a block only its
    hash and its parent's matter here. */
module MainChain {
  import opened Sorting

  type Hash = int

  datatype Block = Block(hash: Hash, prev: Hash)

  /** Parent of each block; the first block in the files wins (`setdefault`). */
  function ByHash(blocks: seq<Block>): map<Hash, Hash> {
    if blocks == [] then map[]
    else
      var m := ByHash(blocks[..|blocks| - 1]);
      var b := blocks[|blocks| - 1];
      if b.hash in m then m else m[b.hash := b.prev]
  }

  // ---- paths ------------------------------------------------------------------

  ghost predicate IsPath(m: map<Hash, Hash>, genesis: Hash, p: seq<Hash>) {
    && p != [] && p[0] == genesis
    && (forall i :: 0 <= i < |p| ==> p[i] in m)
    && (forall i :: 0 < i < |p| ==> m[p[i]] == p[i - 1])
  }

  function Last(p: seq<Hash>): Hash {
    if p == [] then 0 else p[|p| - 1]
  }

  predicate Better(p: seq<Hash>, q: seq<Hash>) {
    |p| > |q| || (|p| == |q| && Last(p) < Last(q))
  }

  /** No path beats it in length, and ties go to the smallest tip. */
  ghost predicate IsBest(m: map<Hash, Hash>, genesis: Hash, b: seq<Hash>) {
    IsPath(m, genesis, b) && forall q :: IsPath(m, genesis, q) ==> q == b || Better(b, q)
  }

  /** The parent genesis names is not itself reached from genesis. */
  ghost predicate Rooted(m: map<Hash, Hash>, genesis: Hash) {
    forall p :: IsPath(m, genesis, p) ==> m[genesis] != Last(p)
  }

  lemma PathInit(m: map<Hash, Hash>, genesis: Hash, p: seq<Hash>)
    requires IsPath(m, genesis, p) && |p| > 1
    ensures IsPath(m, genesis, p[..|p| - 1]) && m[Last(p)] == Last(p[..|p| - 1])
  {
  }

  lemma PathExtend(m: map<Hash, Hash>, genesis: Hash, p: seq<Hash>, c: Hash)
    requires IsPath(m, genesis, p) && c in m && m[c] == Last(p)
    ensures IsPath(m, genesis, p + [c])
  {
  }

  /** Each block is reached by one path only. */
  lemma {:induction false} PathUnique(m: map<Hash, Hash>, genesis: Hash, p: seq<Hash>, q: seq<Hash>)
    requires Rooted(m, genesis) && IsPath(m, genesis, p) && IsPath(m, genesis, q) && Last(p) == Last(q)
    ensures p == q
    decreases |p|
  {
    if |q| > 1 { PathInit(m, genesis, q); }
    if |p| > 1 {
      PathInit(m, genesis, p);
      assert |q| > 1;
      PathUnique(m, genesis, p[..|p| - 1], q[..|q| - 1]);
      assert p == p[..|p| - 1] + [Last(p)] && q == q[..|q| - 1] + [Last(q)];
    }
  }

  lemma BestUnique(m: map<Hash, Hash>, genesis: Hash, a: seq<Hash>, b: seq<Hash>)
    requires IsBest(m, genesis, a) && IsBest(m, genesis, b)
    ensures a == b
  {
  }

  /** Otherwise there is a cycle through genesis and no longest path: the search would
      push ever longer ones. */
  lemma NoBestThroughCycle(m: map<Hash, Hash>, genesis: Hash, b: seq<Hash>)
    requires genesis in m && !Rooted(m, genesis)
    ensures !IsBest(m, genesis, b)
  {
    var p :| IsPath(m, genesis, p) && m[genesis] == Last(p);
    if IsPath(m, genesis, b) {
      Around(m, genesis, p, b);
    }
  }

  lemma Around(m: map<Hash, Hash>, genesis: Hash, p: seq<Hash>, b: seq<Hash>)
    requires IsPath(m, genesis, p) && IsPath(m, genesis, b) && m[genesis] == Last(p)
    ensures IsPath(m, genesis, p + b) && |p + b| > |b|
  {
  }

  // ---- the search ------------------------------------------------------------------

  /** The dictionary of blocks, and its keys in insertion order. */
  method IndexBlocks(blocks: seq<Block>) returns (m: map<Hash, Hash>, order: seq<Hash>)
    ensures m == ByHash(blocks)
    ensures forall h :: h in order <==> h in m
    ensures forall i, j :: 0 <= i < j < |order| ==> order[i] != order[j]
  {
    m, order := map[], [];
    var i := 0;
    while i < |blocks|
      invariant 0 <= i <= |blocks| && m == ByHash(blocks[..i])
      invariant forall h :: h in order <==> h in m
      invariant forall j, k :: 0 <= j < k < |order| ==> order[j] != order[k]
    {
      assert blocks[..i + 1][..i] == blocks[..i];
      if blocks[i].hash !in m {
        m := m[blocks[i].hash := blocks[i].prev];
        order := order + [blocks[i].hash];
      }
      i := i + 1;
    }
    assert blocks[..i] == blocks;
  }

  ghost predicate NoRepeats(s: seq<Hash>) {
    forall i, j :: 0 <= i < j < |s| ==> s[i] != s[j]
  }

  /** Every block is listed once, under its parent, in the order of the hashes. */
  ghost predicate ChildMap(m: map<Hash, Hash>, children: map<Hash, seq<Hash>>) {
    && (forall c :: c in m ==> m[c] in children && c in children[m[c]])
    && (forall x, c :: x in children && c in children[x] ==> c in m && m[c] == x)
    && (forall x :: x in children ==> NoRepeats(children[x]) && Sorted(children[x]))
  }

  method Children(m: map<Hash, Hash>, order: seq<Hash>) returns (children: map<Hash, seq<Hash>>)
    requires forall k :: 0 <= k < |order| ==> order[k] in m
    requires forall h :: h in m ==> h in order
    requires NoRepeats(order)
    ensures ChildMap(m, children)
  {
    hide Sorted, NoRepeats;
    children := map[];
    var i := 0;
    while i < |order|
      invariant 0 <= i <= |order| && Filed(m, order, i, children)
    {
      FiledStep(m, order, i, children);
      var c := order[i];
      var p := m[c];
      children := children[p := Insert(c, if p in children then children[p] else [])];
      i := i + 1;
    }
    FiledAll(m, order, children);
  }

  /** The first `i` blocks filed under their parents, and no others. */
  ghost predicate Filed(m: map<Hash, Hash>, order: seq<Hash>, i: nat, children: map<Hash, seq<Hash>>)
    requires i <= |order| && forall k :: 0 <= k < |order| ==> order[k] in m
  {
    && (forall k :: 0 <= k < i ==> m[order[k]] in children && order[k] in children[m[order[k]]])
    && (forall x, c :: x in children && c in children[x] ==> c in order[..i] && c in m && m[c] == x)
    && (forall x :: x in children ==> NoRepeats(children[x]) && Sorted(children[x]))
  }

  lemma FiledStep(m: map<Hash, Hash>, order: seq<Hash>, i: nat, children: map<Hash, seq<Hash>>)
    requires i < |order| && (forall k :: 0 <= k < |order| ==> order[k] in m) && NoRepeats(order)
    requires Filed(m, order, i, children)
    ensures
      var c, p := order[i], m[order[i]];
      Filed(m, order, i + 1, children[p := Insert(c, if p in children then children[p] else [])])
  {
    hide Insert, Sorted;
    var c, p := order[i], m[order[i]];
    var siblings := if p in children then children[p] else [];
    assert c !in order[..i] && order[..i + 1] == order[..i] + [c];
    assert c !in siblings;
    EmptyInOrder();
    InsertKeeps(c, siblings);
    hide NoRepeats;
  }

  lemma EmptyInOrder()
    ensures NoRepeats([]) && Sorted([])
  {
  }

  lemma FiledAll(m: map<Hash, Hash>, order: seq<Hash>, children: map<Hash, seq<Hash>>)
    requires (forall k :: 0 <= k < |order| ==> order[k] in m) && (forall h :: h in m ==> h in order)
    requires Filed(m, order, |order|, children)
    ensures ChildMap(m, children)
  {
    hide Sorted, NoRepeats;
  }

  lemma InsertKeeps(x: Hash, s: seq<Hash>)
    requires x !in s && NoRepeats(s) && Sorted(s)
    ensures NoRepeats(Insert(x, s)) && Sorted(Insert(x, s))
    ensures forall y :: y in Insert(x, s) <==> y == x || y in s
  {
    InsertSorted(x, s);
    InsertMultiset(x, s);
    InsertIn(x, s);
    InsertDistinct(x, s);
  }

  lemma {:induction false} InsertIn(x: Hash, s: seq<Hash>)
    ensures forall y :: y in Insert(x, s) <==> y == x || y in s
  {
    if s != [] && x > s[0] {
      InsertIn(x, s[1..]);
      assert s == [s[0]] + s[1..];
    }
  }

  lemma {:induction false} InsertDistinct(x: Hash, s: seq<Hash>)
    requires x !in s && NoRepeats(s)
    ensures NoRepeats(Insert(x, s))
  {
    if s != [] && x > s[0] {
      assert s == [s[0]] + s[1..];
      InsertDistinct(x, s[1..]);
      InsertIn(x, s[1..]);
      var t := Insert(x, s[1..]);
      assert s[0] !in s[1..] && s[0] !in t;
      forall i, j | 0 <= i < j < |[s[0]] + t|
        ensures ([s[0]] + t)[i] != ([s[0]] + t)[j]
      {
        assert ([s[0]] + t)[j] == t[j - 1];
      }
    }
  }

  /** A path on the stack: its tip is new, its tip's parent was taken before. */
  ghost predicate Waiting(m: map<Hash, Hash>, genesis: Hash, p: seq<Hash>, done: set<Hash>) {
    IsPath(m, genesis, p) && Last(p) !in done && (Last(p) == genesis || m[Last(p)] in done)
  }

  ghost predicate StackOk(m: map<Hash, Hash>, genesis: Hash, stack: seq<seq<Hash>>, done: set<Hash>) {
    && (forall i :: 0 <= i < |stack| ==> Waiting(m, genesis, stack[i], done))
    && (forall i, j :: 0 <= i < j < |stack| ==> Last(stack[i]) != Last(stack[j]))
    && done <= m.Keys
    && (forall d :: d in done ==> d == genesis || m[d] in done)
  }

  /** No path to a block taken so far beats the best. */
  ghost predicate Compared(m: map<Hash, Hash>, genesis: Hash, done: set<Hash>, best: seq<Hash>) {
    && (best == [] || IsPath(m, genesis, best))
    && (done != {} ==> best != [])
    && forall p :: IsPath(m, genesis, p) && Last(p) in done ==> p == best || Better(best, p)
  }

  ghost predicate HasPrefix(stack: seq<seq<Hash>>, p: seq<Hash>) {
    exists i :: 0 <= i < |stack| && stack[i] <= p
  }

  /** Every other path goes on from one on the stack. */
  ghost predicate Pending(m: map<Hash, Hash>, genesis: Hash, stack: seq<seq<Hash>>, done: set<Hash>) {
    forall p :: IsPath(m, genesis, p) && Last(p) !in done ==> HasPrefix(stack, p)
  }

  function Pushed(path: seq<Hash>, kids: seq<Hash>): (s: seq<seq<Hash>>)
    ensures |s| == |kids| && forall k :: 0 <= k < |kids| ==> s[k] == path + [kids[k]]
  {
    seq(|kids|, k requires 0 <= k < |kids| => path + [kids[k]])
  }

  ghost predicate AllChildren(m: map<Hash, Hash>, x: Hash, kids: seq<Hash>) {
    && NoRepeats(kids)
    && (forall c :: c in m && m[c] == x ==> c in kids)
    && (forall c :: c in kids ==> c in m && m[c] == x)
  }

  lemma KidOf(m: map<Hash, Hash>, x: Hash, kids: seq<Hash>, c: Hash)
    requires AllChildren(m, x, kids) && c in m && m[c] == x
    ensures c in kids
  {
  }

  lemma SearchStarts(m: map<Hash, Hash>, genesis: Hash)
    requires genesis in m
    ensures StackOk(m, genesis, [[genesis]], {})
    ensures Compared(m, genesis, {}, []) && Pending(m, genesis, [[genesis]], {})
  {
    var stack := [[genesis]];
    forall p | IsPath(m, genesis, p)
      ensures HasPrefix(stack, p)
    {
      assert stack[0] <= p;
    }
  }

  /** When the stack is empty every path was compared. */
  lemma SearchEnds(m: map<Hash, Hash>, genesis: Hash, done: set<Hash>, best: seq<Hash>)
    requires genesis in m && Compared(m, genesis, done, best) && Pending(m, genesis, [], done)
    ensures IsBest(m, genesis, best)
  {
    assert IsPath(m, genesis, [genesis]);
    forall p | IsPath(m, genesis, p)
      ensures Last(p) in done
    {
      assert !HasPrefix([], p);
    }
  }

  lemma ChildIsNew(m: map<Hash, Hash>, genesis: Hash, path: seq<Hash>, c: Hash, done: set<Hash>)
    requires Rooted(m, genesis) && Waiting(m, genesis, path, done) && c in m && m[c] == Last(path)
    requires done <= m.Keys && forall d :: d in done ==> d == genesis || m[d] in done
    ensures c != genesis && c !in done && c != Last(path)
  {
    if c == Last(path) && |path| > 1 {
      PathInit(m, genesis, path);
    }
  }

  /** Pushing a tip's children keeps the stack free of blocks met before. */
  lemma StackStep(m: map<Hash, Hash>, genesis: Hash, stack: seq<seq<Hash>>, done: set<Hash>, path: seq<Hash>, kids: seq<Hash>)
    requires Rooted(m, genesis) && StackOk(m, genesis, stack + [path], done) && AllChildren(m, Last(path), kids)
    ensures IsPath(m, genesis, path) && path != [] && Last(path) in m && Last(path) !in done
    ensures StackOk(m, genesis, stack + Pushed(path, kids), done + {Last(path)})
  {
    var was, all := stack + [path], stack + Pushed(path, kids);
    var done' := done + {Last(path)};
    assert was[|stack|] == path && Waiting(m, genesis, path, done);
    forall i | 0 <= i < |all|
      ensures Waiting(m, genesis, all[i], done')
    {
      if i < |stack| {
        assert all[i] == was[i] && Waiting(m, genesis, was[i], done);
        assert Last(was[i]) != Last(was[|stack|]);
      } else {
        var c := kids[i - |stack|];
        assert c in kids && all[i] == path + [c];
        PathExtend(m, genesis, path, c);
        ChildIsNew(m, genesis, path, c, done);
      }
    }
    forall i, j | 0 <= i < j < |all|
      ensures Last(all[i]) != Last(all[j])
    {
      if j < |stack| {
        assert all[i] == was[i] && all[j] == was[j];
      } else {
        var c := kids[j - |stack|];
        assert c in kids && all[j] == path + [c];
        if i < |stack| {
          assert all[i] == was[i] && Waiting(m, genesis, was[i], done);
          ChildIsNew(m, genesis, path, c, done);
        } else {
          assert all[i] == path + [kids[i - |stack|]];
        }
      }
    }
  }

  /** Comparing the path of a new tip covers every path to it: there is only the one. */
  lemma CompareStep(m: map<Hash, Hash>, genesis: Hash, done: set<Hash>, best: seq<Hash>, path: seq<Hash>)
    requires Rooted(m, genesis) && Compared(m, genesis, done, best) && IsPath(m, genesis, path)
    ensures Compared(m, genesis, done + {Last(path)}, if Better(path, best) then path else best)
  {
    var best' := if Better(path, best) then path else best;
    forall p | IsPath(m, genesis, p) && Last(p) in done + {Last(path)}
      ensures p == best' || Better(best', p)
    {
      if Last(p) == Last(path) {
        PathUnique(m, genesis, p, path);
        if best != [] && Last(best) == Last(path) && !Better(path, best) && |best| == |path| {
          PathUnique(m, genesis, best, path);
        }
      }
    }
  }

  /** A path that went on from the one taken goes on from one of its children. */
  lemma PendingStep(m: map<Hash, Hash>, genesis: Hash, stack: seq<seq<Hash>>, done: set<Hash>, path: seq<Hash>, kids: seq<Hash>)
    requires Pending(m, genesis, stack + [path], done) && AllChildren(m, Last(path), kids) && path != []
    ensures Pending(m, genesis, stack + Pushed(path, kids), done + {Last(path)})
  {
    var was, all := stack + [path], stack + Pushed(path, kids);
    forall p | IsPath(m, genesis, p) && Last(p) !in done + {Last(path)}
      ensures HasPrefix(all, p)
    {
      assert HasPrefix(was, p);
      var i :| 0 <= i < |was| && was[i] <= p;
      if i < |stack| {
        assert all[i] == was[i];
      } else {
        var n := |path|;
        assert p[..n] == path && |p| > n;
        assert m[p[n]] == p[n - 1] == Last(path);
        KidOf(m, Last(path), kids, p[n]);
        var k :| 0 <= k < |kids| && kids[k] == p[n];
        assert all[|stack| + k] == path + [p[n]];
        assert p[..n + 1] == path + [p[n]];
      }
    }
  }

  datatype Choice = NoGenesis | Chosen(chain: seq<Hash>)

  method SelectMainChain(blocks: seq<Block>, genesis: Hash) returns (r: Choice)
    requires genesis in ByHash(blocks) ==> Rooted(ByHash(blocks), genesis)
    ensures r.NoGenesis? <==> genesis !in ByHash(blocks)
    ensures r.Chosen? ==> IsBest(ByHash(blocks), genesis, r.chain)
  {
    var m, order := IndexBlocks(blocks);
    if genesis !in m { return NoGenesis; }
    var children := Children(m, order);
    var chain := Search(m, children, genesis);
    r := Chosen(chain);
  }

  /** The stack loop: it ends because no block is taken twice. */
  method Search(m: map<Hash, Hash>, children: map<Hash, seq<Hash>>, genesis: Hash) returns (best: seq<Hash>)
    requires genesis in m && Rooted(m, genesis) && ChildMap(m, children)
    ensures IsBest(m, genesis, best)
  {
    hide StackOk, Compared, Pending, Rooted, AllChildren, ChildMap, IsPath, IsBest;
    best := [];
    var stack := [[genesis]];
    ghost var done := {};
    SearchStarts(m, genesis);
    while stack != []
      invariant StackOk(m, genesis, stack, done)
      invariant Compared(m, genesis, done, best)
      invariant Pending(m, genesis, stack, done)
      decreases m.Keys - done
    {
      var path := stack[|stack| - 1];
      var rest := stack[..|stack| - 1];
      assert stack == rest + [path];
      var kids := if Last(path) in children then children[Last(path)] else [];
      KidsAreChildren(m, children, Last(path));
      StackStep(m, genesis, rest, done, path, kids);
      CompareStep(m, genesis, done, best, path);
      PendingStep(m, genesis, rest, done, path, kids);
      if |path| > |best| || (|path| == |best| && Last(path) < Last(best)) {
        best := path;
      }
      stack := PushKids(rest, path, kids);
      done := done + {Last(path)};
    }
    SearchEnds(m, genesis, done, best);
  }

  method PushKids(rest: seq<seq<Hash>>, path: seq<Hash>, kids: seq<Hash>) returns (stack: seq<seq<Hash>>)
    ensures stack == rest + Pushed(path, kids)
  {
    stack := rest;
    var k := 0;
    while k < |kids|
      invariant 0 <= k <= |kids| && stack == rest + Pushed(path, kids)[..k]
    {
      stack := stack + [path + [kids[k]]];
      k := k + 1;
    }
  }

  lemma KidsAreChildren(m: map<Hash, Hash>, children: map<Hash, seq<Hash>>, x: Hash)
    requires ChildMap(m, children)
    ensures AllChildren(m, x, if x in children then children[x] else [])
  {
  }

  // ---- order of the files --------------------------------------------------------------

  /** A hash determines its block. */
  ghost predicate Consistent(blocks: seq<Block>) {
    forall i, j :: 0 <= i < |blocks| && 0 <= j < |blocks| && blocks[i].hash == blocks[j].hash ==> blocks[i] == blocks[j]
  }

  lemma {:induction false} ByHashIs(blocks: seq<Block>, b: Block)
    requires Consistent(blocks)
    ensures b in blocks <==> b.hash in ByHash(blocks) && ByHash(blocks)[b.hash] == b.prev
    decreases |blocks|
  {
    if blocks != [] {
      var n := |blocks| - 1;
      var init, last := blocks[..n], blocks[n];
      assert blocks == init + [last];
      assert Consistent(init);
      ByHashIs(init, b);
      ByHashIs(init, last);
      if last.hash in ByHash(init) {
        ByHashIs(init, Block(last.hash, ByHash(init)[last.hash]));
        assert Block(last.hash, ByHash(init)[last.hash]) in blocks;
        assert last in blocks;
      }
    }
  }

  /** The chosen chain depends on the set of blocks alone, not on the order in which the
      files hold them or on repetitions. */
  lemma OrderDoesNotMatter(a: seq<Block>, b: seq<Block>, genesis: Hash, x: seq<Hash>, y: seq<Hash>)
    requires Consistent(a) && Consistent(b) && (forall k :: k in a <==> k in b)
    requires IsBest(ByHash(a), genesis, x) && IsBest(ByHash(b), genesis, y)
    ensures x == y
  {
    var m, n := ByHash(a), ByHash(b);
    forall h
      ensures h in m <==> h in n
      ensures h in m && h in n ==> m[h] == n[h]
    {
      if h in m {
        ByHashIs(a, Block(h, m[h]));
        ByHashIs(b, Block(h, m[h]));
      }
      if h in n {
        ByHashIs(a, Block(h, n[h]));
        ByHashIs(b, Block(h, n[h]));
      }
    }
    assert m == n;
    BestUnique(m, genesis, x, y);
  }
}
