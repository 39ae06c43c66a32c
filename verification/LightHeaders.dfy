/** The class that maintains the header index in place (`Headers`,
    src/btclight.cpp), proved against the tree it stands for. */
module LightHeaders {
  import opened HeaderIndex
  import opened Sorting
  import Medians

  /** `r` is the height of the last header that the branch of `h` shares with the
      active chain. */
  ghost predicate ForksAt(ix: Index, h: Hash, r: int)
    requires ix.Valid() && h in ix.nodes
  {
    var k, p := r - ix.base, ix.Branch(h);
    && 0 <= k < |p| && k < |ix.active|
    && p[..k + 1] == ix.active[..k + 1]
    && forall j :: k < j < |p| && j < |ix.active| ==> p[j] != ix.active[j]
  }

  class Headers {
    var nodes: map<Hash, Header>
    var active: seq<Hash>
    const base: nat
    const trusted: nat

    ghost function State(): Index
      reads this
    {
      Index(nodes, active, base, trusted)
    }

    ghost predicate Valid()
      reads this
    {
      Sound(State())
    }

    /** `Start`: a run of linked headers, each adding no negative work.  The source
        throws on one that does not link; its constants are these. */
    constructor (n: seq<Header>, base: nat)
      requires Linked(n, base)
      ensures Valid() && State().trusted == |n| && this.base == base
      ensures |active| == |n| && forall i :: 0 <= i < |n| ==> active[i] == n[i].hash
    {
      this.base := base;
      this.trusted := |n|;
      var m := map[n[0].hash := n[0]];
      var a := [n[0].hash];
      var i := 1;
      while i < |n|
        invariant 1 <= i <= |n| && |a| == i
        invariant forall k :: 0 <= k < i ==> a[k] == n[k].hash
        invariant forall k :: 0 <= k < i ==> n[k].hash in m && m[n[k].hash] == n[k]
        invariant forall h :: h in m ==> h in a
      {
        m := m[n[i].hash := n[i]];
        a := a + [n[i].hash];
        i := i + 1;
      }
      nodes := m;
      active := a;
      StartSound(n, Index(m, a, base, |n|));
    }

    /** The height of a header on the active chain, -1 for any other. */
    function ActiveHeight(hash: Hash): (r: int)
      requires Valid()
      reads this
      ensures r >= 0 <==> hash in active
      ensures r >= 0 ==> hash in nodes && r == nodes[hash].height && 0 <= r - base < |active| && active[r - base] == hash
    {
      ActiveShape(State());
      if hash !in nodes then -1
      else
        assert InTree(nodes, base, active[0], hash);
        var r := nodes[hash].height;
        if r < base || r > nodes[active[|active| - 1]].height || active[r - base] != hash then -1 else r
    }

    method Median(h: Hash) returns (m: int)
      requires Valid() && h in nodes
      ensures m == MedianTime(nodes, base, active[0], h)
    {
      var times := WindowTimes(nodes, base, active[0], h);
      SortCorrect(times);
      times := Sort(times);
      m := times[|times| / 2];
    }

    /** The in-place rewrite is exactly the change of the tree: one more node, and the
        new branch when it holds strictly more work.  Where the loop stops early, what
        it leaves behind is already the branch. */
    method Add(c: Candidate, e: Setting) returns (ok: bool)
      requires Valid() && c.hash != FILLER
      modifies this`nodes, this`active
      ensures State() == Step(old(State()), c, e)
      ensures Valid() && Extends(old(State()), State())
      ensures ok <==> c.hash in nodes ||
                      (c.prev in old(nodes) && e.stored && old(nodes[c.prev].height) < base + trusted - 1)
    {
      hide TimesChecked, MedianTime, Grown;
      ghost var before := State();
      StepKeeps(before, c, e);
      if c.hash in nodes { return true; }
      if c.prev !in nodes { return false; }
      if nodes[c.prev].height < base + trusted - 1 { return e.stored; }
      var accept := Checks(c, e);
      if !accept { return false; }
      var p := nodes[c.prev];
      var n := Header(c.hash, c.prev, c.time, p.height + 1, p.work + c.step);
      nodes, active := Inserted(before, nodes, active, base, n);
      return true;
    }

    /** The refusals of `Add` past the anchor rule: reorganisation depth, proof, time
        and, on testnet4, the time-warp rule. */
    method Checks(c: Candidate, e: Setting) returns (accept: bool)
      requires Valid() && c.hash !in nodes && c.prev in nodes && nodes[c.prev].height >= base + trusted - 1
      ensures accept <==> Accepts(State(), c, e)
    {
      hide MedianTime;
      var p, tip := nodes[c.prev], nodes[active[|active| - 1]];
      if e.maxReorg > 0 && !e.stored && tip.height - p.height >= e.maxReorg && e.now - tip.time <= 43200 {
        return false;
      }
      if !c.proven { return false; }
      var median := Median(c.prev);
      if c.time <= median || c.time > e.now + 7200 { return false; }
      return !(e.bip94 && e.interval > 0 && (p.height + 1) % e.interval == 0 && c.time < p.time - 600);
    }

    method ForkHeight(hash: Hash) returns (r: int)
      requires Valid()
      ensures hash !in nodes ==> r == -1
      ensures hash in nodes ==> ForksAt(State(), hash, r)
    {
      if hash !in nodes { return -1; }
      ghost var root := active[0];
      ghost var path := Path(nodes, base, root, hash);
      PathShape(nodes, base, root, hash);
      ActiveShape(State());
      var walk := hash;
      while ActiveHeight(walk) < 0
        invariant walk in nodes && 0 <= nodes[walk].height - base < |path|
        invariant path[nodes[walk].height - base] == walk
        invariant forall j :: nodes[walk].height - base < j < |path| && j < |active| ==> path[j] != active[j]
        decreases nodes[walk].height - base
      {
        assert walk !in active;
        assert InTree(nodes, base, root, walk);
        PathLink(nodes, base, root, hash, nodes[walk].height - base);
        walk := nodes[walk].prev;
      }
      r := nodes[walk].height;
      SharedBelow(State(), hash, r - base);
    }

    /** Hashes of the active chain, thinning out from the tip down to the base, so a
        peer on any branch finds one it knows. */
    method Locator() returns (out: seq<Hash>)
      requires Valid()
      ensures out == Thin(active, |active| - 1, 1, 0)
    {
      out := Thinned(active);
    }
  }

  method Thinned(active: seq<Hash>) returns (out: seq<Hash>)
    requires active != []
    ensures out == Thin(active, |active| - 1, 1, 0)
  {
    out := [];
    var step: nat, k: nat := 1, |active| - 1;
    while true
      invariant k < |active| && step >= 1
      invariant out + Thin(active, k, step, |out|) == Thin(active, |active| - 1, 1, 0)
      decreases k
    {
      ghost var was := out;
      out := out + [active[k]];
      if k == 0 { break; }
      k := if k > step then k - step else 0;
      if |out| > 10 { step := step * 2; }
      Joined(was, out[|was|], Thin(active, k, step, |out|));
    }
  }

  lemma Joined(a: seq<Hash>, h: Hash, b: seq<Hash>)
    ensures a + ([h] + b) == a + [h] + b
  {
  }

  /** From position `k` down to the base, one apart until eleven stand, then at distances
      that double. */
  function Thin(active: seq<Hash>, k: nat, step: nat, have: nat): seq<Hash>
    requires k < |active| && step > 0
  {
    if k == 0 then [active[k]]
    else [active[k]] +
         Thin(active, if k > step then k - step else 0, if have + 1 > 10 then step * 2 else step, have + 1)
  }

  /** A locator starts at its tip, ends at the base and names only active headers; the
      newest ones stand without a gap. */
  lemma {:induction false} ThinShape(active: seq<Hash>, k: nat, step: nat, have: nat, i: nat)
    requires k < |active| && step > 0 && i < |Thin(active, k, step, have)|
    ensures var s := Thin(active, k, step, have);
            && s[0] == active[k] && s[|s| - 1] == active[0] && s[i] in active
            && (step == 1 && have + i <= 11 ==> i <= k && s[i] == active[k - i])
    decreases k
  {
    if k > 0 {
      var m, d := if k > step then k - step else 0, if have + 1 > 10 then step * 2 else step;
      ThinShape(active, m, d, have + 1, if i > 0 then i - 1 else 0);
    }
  }

  /** The walk of `Headers::Median`: up to eleven times, newest first. */
  method WindowTimes(nodes: Nodes, base: int, root: Hash, h: Hash) returns (times: seq<int>)
    requires Tree(nodes, base, root) && h in nodes
    ensures times == Window(nodes, base, root, h, SPAN)
  {
    times := [];
    var walk := h;
    var i := 0;
    while i < SPAN
      invariant 0 <= i <= SPAN && walk in nodes
      invariant times + Window(nodes, base, root, walk, SPAN - i) == Window(nodes, base, root, h, SPAN)
    {
      assert InTree(nodes, base, root, walk);
      ghost var rest := Window(nodes, base, root, walk, SPAN - i);
      assert times + rest == times + [nodes[walk].time] + rest[1..];
      times := times + [nodes[walk].time];
      if nodes[walk].height <= base { return; }
      walk := nodes[walk].prev;
      i := i + 1;
    }
  }

  /** The end of `Headers::Add`: the node, and the vector when the work is more. */
  method Inserted(ghost ix: Index, nodes: Nodes, active: seq<Hash>, base: int, n: Header)
      returns (nodes': Nodes, active': seq<Hash>)
    requires ix.Valid() && CanGrow(ix, n) && nodes == ix.nodes && active == ix.active && base == ix.base
    ensures ix.(nodes := nodes', active := active') == Grown(ix, n)
    ensures nodes' == nodes[n.hash := n]
  {
    nodes' := nodes[n.hash := n];
    active' := active;
    if n.work > nodes[active[|active| - 1]].work {
      active' := Rewritten(nodes', base, active, n.hash, ix, n);
    }
  }

  /** The rewrite loop of `Headers::Add`: the vector resized to the new branch, then
      filled from its end until an entry already fits. */
  method Rewritten(nodes: Nodes, base: int, previous: seq<Hash>, h: Hash, ghost ix: Index, ghost n: Header)
      returns (active: seq<Hash>)
    requires ix.Valid() && CanGrow(ix, n) && h == n.hash
    requires nodes == Grown(ix, n).nodes && base == ix.base && previous == ix.active
    ensures Tree(nodes, base, previous[0]) && active == Path(nodes, base, previous[0], h)
  {
    GrownBranches(ix, n);
    ghost var path := Path(nodes, base, previous[0], h);
    PathShape(nodes, base, previous[0], h);
    var length := nodes[h].height + 1 - base;
    active := if length <= |previous| then previous[..length] else previous + seq(length - |previous|, i => FILLER);
    ghost var resized := active;
    var stop: int;
    active, stop := FillBranch(nodes, base, previous[0], active, h);
    EarlyExit(ix, n, resized, active, stop);
  }

  method FillBranch(nodes: Nodes, base: int, ghost root: Hash, resized: seq<Hash>, h: Hash)
      returns (active: seq<Hash>, stop: int)
    requires Tree(nodes, base, root) && h in nodes
    requires |resized| == |Path(nodes, base, root, h)|
    ensures var p := Path(nodes, base, root, h);
            && |active| == |p| && 0 <= stop < |p|
            && (forall i :: stop <= i < |p| ==> active[i] == p[i])
            && (forall i :: 0 <= i < stop ==> active[i] == resized[i])
            && (stop == 0 || active[stop] == resized[stop])
  {
    ghost var path := Path(nodes, base, root, h);
    PathShape(nodes, base, root, h);
    active := resized;
    var walk := h;
    while active[nodes[walk].height - base] != walk
      invariant walk in nodes && 0 <= nodes[walk].height - base < |path| == |active|
      invariant path[nodes[walk].height - base] == walk
      invariant forall i :: nodes[walk].height - base < i < |path| ==> active[i] == path[i]
      invariant forall i :: 0 <= i <= nodes[walk].height - base ==> active[i] == resized[i]
      decreases nodes[walk].height - base
    {
      var k := nodes[walk].height - base;
      active := active[k := walk];
      if nodes[walk].height == base { break; }
      PathLink(nodes, base, root, h, k);
      walk := nodes[walk].prev;
    }
    stop := nodes[walk].height - base;
  }

  /** Two branches that share a header share everything below it. */
  lemma SharedBelow(ix: Index, h: Hash, k: nat)
    requires ix.Valid() && h in ix.nodes && k < |ix.Branch(h)| && k < |ix.active|
    requires ix.Branch(h)[k] == ix.active[k]
    requires forall j :: k < j < |ix.Branch(h)| && j < |ix.active| ==> ix.Branch(h)[j] != ix.active[j]
    ensures ForksAt(ix, h, ix.base + k)
  {
    PathPrefix(ix.nodes, ix.base, ix.active[0], h, k);
    PathPrefix(ix.nodes, ix.base, ix.active[0], ix.active[|ix.active| - 1], k);
  }

  /** Along a branch each header's parent is the one before it. */
  lemma PathLink(nodes: Nodes, base: int, root: Hash, h: Hash, k: nat)
    requires Tree(nodes, base, root) && h in nodes
    requires 0 < k < |Path(nodes, base, root, h)|
    ensures var p := Path(nodes, base, root, h); p[k] in nodes && nodes[p[k]].prev == p[k - 1]
  {
    PathShape(nodes, base, root, h);
    PathPrefix(nodes, base, root, h, k);
    var p := Path(nodes, base, root, h);
    assert InTree(nodes, base, root, p[k]);
    assert p[k] != root;
    var q := Path(nodes, base, root, nodes[p[k]].prev);
    PathShape(nodes, base, root, nodes[p[k]].prev);
    assert p[..k + 1] == q + [p[k]];
    assert p[k - 1] == p[..k + 1][k - 1] == q[|q| - 1];
  }

  /** Where the rewritten vector already holds the branch's header, it holds the whole
      branch below it: the entry is old, not filler, and the old chain was a branch. */
  lemma EarlyExit(ix: Index, n: Header, resized: seq<Hash>, now: seq<Hash>, k: int)
    requires ix.Valid() && CanGrow(ix, n)
    requires Tree(Grown(ix, n).nodes, ix.base, ix.active[0])
    requires var p := Path(Grown(ix, n).nodes, ix.base, ix.active[0], n.hash);
             && |resized| == |now| == |p| && 0 <= k < |p|
             && (forall i :: 0 <= i < |p| ==> resized[i] == if i < |ix.active| then ix.active[i] else FILLER)
             && now[k] == p[k]
             && (forall i :: k < i < |p| ==> now[i] == p[i])
             && (forall i :: 0 <= i < k ==> now[i] == resized[i])
             && (k == 0 || now[k] == resized[k])
    ensures now == Path(Grown(ix, n).nodes, ix.base, ix.active[0], n.hash)
  {
    var nodes, root := Grown(ix, n).nodes, ix.active[0];
    var p := Path(nodes, ix.base, root, n.hash);
    PathShape(nodes, ix.base, root, n.hash);
    if k > 0 {
      assert InTree(nodes, ix.base, root, p[k]);
      assert k < |ix.active| && ix.active[k] == p[k];
      ActiveShape(ix);
      PathPrefix(nodes, ix.base, root, n.hash, k);
      PathPrefix(ix.nodes, ix.base, root, ix.active[|ix.active| - 1], k);
      PathFrame(ix.nodes, ix.base, root, n, p[k]);
      assert p[..k + 1] == ix.active[..k + 1];
      forall i | 0 <= i < k
        ensures now[i] == p[i]
      {
        assert p[..k + 1][i] == ix.active[..k + 1][i];
      }
    }
  }

  /** The run of headers `Start` begins from: linked, one height apart, distinct. */
  ghost predicate Linked(n: seq<Header>, base: int) {
    && n != []
    && (forall i :: 0 <= i < |n| ==> n[i].hash != FILLER && n[i].height == base + i)
    && (forall i :: 0 < i < |n| ==> n[i].prev == n[i - 1].hash && n[i].work >= n[i - 1].work)
    && (forall i, j :: 0 <= i < j < |n| ==> n[i].hash != n[j].hash)
  }

  ghost predicate Holds(n: seq<Header>, ix: Index) {
    && ix.trusted == |n| == |ix.active|
    && (forall k :: 0 <= k < |n| ==> ix.active[k] == n[k].hash)
    && (forall k :: 0 <= k < |n| ==> n[k].hash in ix.nodes && ix.nodes[n[k].hash] == n[k])
    && (forall h :: h in ix.nodes ==> h in ix.active)
  }

  lemma StartSound(n: seq<Header>, ix: Index)
    requires Linked(n, ix.base) && Holds(n, ix)
    ensures Sound(ix)
  {
    StartTree(n, ix);
    StartPath(n, ix, |n| - 1);
    assert ix.active == ix.active[..|n|];
    forall h | h in ix.nodes
      ensures ix.nodes[h].work <= n[|n| - 1].work && ix.OnAnchor(h)
    {
      var k :| 0 <= k < |n| && ix.active[k] == h;
      WorkGrows(n, k);
    }
  }

  lemma StartTree(n: seq<Header>, ix: Index)
    requires Linked(n, ix.base) && Holds(n, ix)
    ensures Tree(ix.nodes, ix.base, n[0].hash)
    ensures forall h :: h in ix.nodes ==> ix.nodes[h].height < ix.base + |n|
  {
    forall h | h in ix.nodes
      ensures InTree(ix.nodes, ix.base, n[0].hash, h) && ix.nodes[h].height < ix.base + |n|
    {
      var k :| 0 <= k < |n| && ix.active[k] == h;
      if k > 0 { assert n[k].prev == n[k - 1].hash; }
    }
  }

  lemma {:induction false} WorkGrows(n: seq<Header>, k: nat)
    requires k < |n| && forall i :: 0 < i < |n| ==> n[i].work >= n[i - 1].work
    ensures n[k].work <= n[|n| - 1].work
    decreases |n| - k
  {
    if k + 1 < |n| {
      WorkGrows(n, k + 1);
      assert n[k + 1].work >= n[k].work;
    }
  }

  lemma {:induction false} StartPath(n: seq<Header>, ix: Index, k: nat)
    requires Linked(n, ix.base) && Holds(n, ix) && k < |n|
    requires Tree(ix.nodes, ix.base, n[0].hash)
    ensures Path(ix.nodes, ix.base, n[0].hash, n[k].hash) == ix.active[..k + 1]
    decreases k
  {
    if k > 0 {
      StartPath(n, ix, k - 1);
      assert n[k].prev == n[k - 1].hash;
      assert ix.active[..k + 1] == ix.active[..k] + [n[k].hash];
    }
  }
}
