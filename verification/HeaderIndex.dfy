/** The light client's header index (`Headers`, src/btclight.cpp): every header it
    accepted, in a map, and the active chain as a vector that a heavier branch
    rewrites in place.  Hashes are numbers; zero is the filler `resize` writes. */
module HeaderIndex {
  import opened Medians

  type Hash = nat
  const FILLER: Hash := 0

  /** How many times a median is taken over. */
  const SPAN: nat := 11

  datatype Header = Header(hash: Hash, prev: Hash, time: int, height: int, work: int)

  // ---- the tree of headers ----------------------------------------------------

  type Nodes = map<Hash, Header>

  ghost predicate InTree(nodes: Nodes, base: int, root: Hash, h: Hash)
    requires h in nodes
  {
    var n := nodes[h];
    && n.hash == h && h != FILLER && n.height >= base
    && (n.height == base <==> h == root)
    && (n.height > base ==> n.prev in nodes && nodes[n.prev].height == n.height - 1)
  }

  /** Heights count up from one root, each header one above its parent. */
  ghost predicate Tree(nodes: Nodes, base: int, root: Hash) {
    root in nodes && forall h {:trigger InTree(nodes, base, root, h)} :: h in nodes ==> InTree(nodes, base, root, h)
  }

  /** The branch that ends in `h`, from the root up. */
  ghost function Path(nodes: Nodes, base: int, root: Hash, h: Hash): seq<Hash>
    requires Tree(nodes, base, root) && h in nodes
    decreases nodes[h].height - base
  {
    assert InTree(nodes, base, root, h);
    if h == root then [h] else Path(nodes, base, root, nodes[h].prev) + [h]
  }

  lemma {:induction false} PathShape(nodes: Nodes, base: int, root: Hash, h: Hash)
    requires Tree(nodes, base, root) && h in nodes
    ensures var p := Path(nodes, base, root, h);
            && |p| == nodes[h].height - base + 1 && p[0] == root && p[|p| - 1] == h
            && forall i :: 0 <= i < |p| ==> p[i] in nodes && nodes[p[i]].height == base + i
    decreases nodes[h].height - base
  {
    assert InTree(nodes, base, root, h);
    if h != root {
      PathShape(nodes, base, root, nodes[h].prev);
    }
  }

  /** Every prefix of a branch is the branch of its own last header. */
  lemma {:induction false} PathPrefix(nodes: Nodes, base: int, root: Hash, h: Hash, k: nat)
    requires Tree(nodes, base, root) && h in nodes
    requires k < |Path(nodes, base, root, h)|
    ensures Path(nodes, base, root, h)[k] in nodes
    ensures Path(nodes, base, root, h)[..k + 1] == Path(nodes, base, root, Path(nodes, base, root, h)[k])
    decreases nodes[h].height - base
  {
    assert InTree(nodes, base, root, h);
    PathShape(nodes, base, root, h);
    var p := Path(nodes, base, root, h);
    if k + 1 < |p| {
      var q := Path(nodes, base, root, nodes[h].prev);
      assert p == q + [h];
      PathPrefix(nodes, base, root, nodes[h].prev, k);
      assert p[..k + 1] == q[..k + 1];
    } else {
      assert p[..k + 1] == p;
    }
  }

  /** A new leaf leaves every branch as it was. */
  lemma {:induction false} PathFrame(nodes: Nodes, base: int, root: Hash, n: Header, h: Hash)
    requires Tree(nodes, base, root) && h in nodes && n.hash !in nodes
    requires Tree(nodes[n.hash := n], base, root)
    ensures Path(nodes[n.hash := n], base, root, h) == Path(nodes, base, root, h)
    decreases nodes[h].height - base
  {
    assert InTree(nodes, base, root, h);
    if h != root {
      PathFrame(nodes, base, root, n, nodes[h].prev);
    }
  }

  lemma TreeGrows(nodes: Nodes, base: int, root: Hash, n: Header)
    requires Tree(nodes, base, root) && n.hash !in nodes && n.hash != FILLER
    requires n.prev in nodes && n.height == nodes[n.prev].height + 1
    ensures Tree(nodes[n.hash := n], base, root)
  {
    var nodes' := nodes[n.hash := n];
    assert InTree(nodes, base, root, n.prev);
    forall h | h in nodes'
      ensures InTree(nodes', base, root, h)
    {
      if h != n.hash { assert InTree(nodes, base, root, h); }
    }
  }

  // ---- the index --------------------------------------------------------------

  /** `trusted` headers at the start are the anchor (one, the genesis, without it). */
  datatype Index = Index(nodes: Nodes, active: seq<Hash>, base: int, trusted: nat) {
    ghost predicate Valid() {
      && active != [] && Tree(nodes, base, active[0])
      && active[|active| - 1] in nodes
      && active == Path(nodes, base, active[0], active[|active| - 1])
      && (forall h :: h in nodes ==> nodes[h].work <= Tip().work)
      && 1 <= trusted <= |active|
      && (forall h {:trigger OnAnchor(h)} :: h in nodes && nodes[h].height < base + trusted ==> OnAnchor(h))
    }

    ghost predicate OnAnchor(h: Hash)
      requires h in nodes
    {
      0 <= nodes[h].height - base < |active| && active[nodes[h].height - base] == h
    }

    ghost predicate HasTip() {
      1 <= trusted <= |active| && active[|active| - 1] in nodes
    }

    function Tip(): Header
      requires active != [] && active[|active| - 1] in nodes
    {
      nodes[active[|active| - 1]]
    }

    ghost function Branch(h: Hash): seq<Hash>
      requires Valid() && h in nodes
    {
      Path(nodes, base, active[0], h)
    }
  }

  lemma ActiveShape(ix: Index)
    requires ix.Valid()
    ensures |ix.active| == ix.Tip().height - ix.base + 1
    ensures forall i :: 0 <= i < |ix.active| ==> ix.active[i] in ix.nodes && ix.nodes[ix.active[i]].height == ix.base + i
    ensures forall i :: 0 <= i < |ix.active| ==> ix.active[i] != FILLER
  {
    PathShape(ix.nodes, ix.base, ix.active[0], ix.active[|ix.active| - 1]);
    forall i | 0 <= i < |ix.active|
      ensures ix.active[i] != FILLER
    {
      assert InTree(ix.nodes, ix.base, ix.active[0], ix.active[i]);
    }
  }

  /** What accepting a header makes of the index: one more node, and the branch it
      ends if that branch now holds strictly more work than the tip. */
  ghost function Grown(ix: Index, n: Header): Index
    requires ix.Valid() && CanGrow(ix, n)
  {
    var nodes' := ix.nodes[n.hash := n];
    TreeGrows(ix.nodes, ix.base, ix.active[0], n);
    ix.(nodes := nodes',
        active := if n.work > ix.Tip().work then Path(nodes', ix.base, ix.active[0], n.hash) else ix.active)
  }

  ghost predicate CanGrow(ix: Index, n: Header)
    requires ix.Valid()
  {
    && n.hash !in ix.nodes && n.hash != FILLER && n.prev in ix.nodes
    && n.height == ix.nodes[n.prev].height + 1
    && ix.nodes[n.prev].height >= ix.base + ix.trusted - 1
  }

  /** Nothing forks from inside the anchor, so two valid branches that reach past it
      share it. */
  lemma AnchorShared(ix: Index, h: Hash)
    requires ix.Valid() && h in ix.nodes && ix.nodes[h].height >= ix.base + ix.trusted - 1
    ensures |ix.Branch(h)| >= ix.trusted && ix.Branch(h)[..ix.trusted] == ix.active[..ix.trusted]
  {
    PathShape(ix.nodes, ix.base, ix.active[0], h);
    ActiveShape(ix);
    var p := ix.Branch(h);
    forall i | 0 <= i < ix.trusted
      ensures p[i] == ix.active[i]
    {
      assert ix.nodes[p[i]].height == ix.base + i;
      assert ix.OnAnchor(p[i]);
    }
  }

  /** The two branches the active chain may be after growing, seen in the new tree. */
  lemma GrownBranches(ix: Index, n: Header)
    requires ix.Valid() && CanGrow(ix, n)
    ensures var g := Grown(ix, n);
            && Tree(g.nodes, ix.base, ix.active[0])
            && var p := Path(g.nodes, ix.base, ix.active[0], n.hash);
            && |p| > ix.trusted && p[0] == ix.active[0] && p[|p| - 1] == n.hash
            && p[..ix.trusted] == ix.active[..ix.trusted]
            && Path(g.nodes, ix.base, ix.active[0], ix.active[|ix.active| - 1]) == ix.active
  {
    var g := Grown(ix, n);
    var root := ix.active[0];
    TreeGrows(ix.nodes, ix.base, root, n);
    AnchorShared(ix, n.prev);
    PathFrame(ix.nodes, ix.base, root, n, n.prev);
    PathFrame(ix.nodes, ix.base, root, n, ix.active[|ix.active| - 1]);
    PathShape(g.nodes, ix.base, root, n.hash);
    assert InTree(g.nodes, ix.base, root, n.hash);
    var p := Path(g.nodes, ix.base, root, n.hash);
    assert p == ix.Branch(n.prev) + [n.hash];
    assert p[..ix.trusted] == ix.Branch(n.prev)[..ix.trusted];
  }

  /** Growing keeps every invariant: the active chain is the branch of a header of
      maximal work, and the anchor prefix stays. */
  lemma GrownValid(ix: Index, n: Header)
    requires ix.Valid() && CanGrow(ix, n)
    ensures Grown(ix, n).Valid()
    ensures Grown(ix, n).active[..ix.trusted] == ix.active[..ix.trusted]
  {
    GrownBranches(ix, n);
    var g := Grown(ix, n);
    assert g.active[0] == ix.active[0];
    forall h | h in g.nodes && g.nodes[h].height < g.base + g.trusted
      ensures g.OnAnchor(h)
    {
      assert h != n.hash;
      assert ix.OnAnchor(h);
      var i := ix.nodes[h].height - ix.base;
      assert g.active[..ix.trusted][i] == ix.active[..ix.trusted][i];
    }
  }

  // ---- median time past -------------------------------------------------------

  /** The times of `h` and its ancestors, newest first, at most `n`, down to the base. */
  ghost function Window(nodes: Nodes, base: int, root: Hash, h: Hash, n: nat): seq<int>
    requires Tree(nodes, base, root) && h in nodes
    decreases n
  {
    assert InTree(nodes, base, root, h);
    if n == 0 then []
    else [nodes[h].time] + if h == root then [] else Window(nodes, base, root, nodes[h].prev, n - 1)
  }

  ghost function MedianTime(nodes: Nodes, base: int, root: Hash, h: Hash): int
    requires Tree(nodes, base, root) && h in nodes
  {
    Medians.Median(Window(nodes, base, root, h, SPAN))
  }

  /** A shorter window is a full one without its oldest, or the same short one. */
  lemma {:induction false} WindowTake(nodes: Nodes, base: int, root: Hash, h: Hash, n: nat)
    requires Tree(nodes, base, root) && h in nodes
    ensures var w, v := Window(nodes, base, root, h, n + 1), Window(nodes, base, root, h, n);
            |w| <= n + 1 && v == if |w| == n + 1 then w[..n] else w
    decreases n
  {
    assert InTree(nodes, base, root, h);
    if n > 0 && h != root {
      WindowTake(nodes, base, root, nodes[h].prev, n - 1);
    }
  }

  /** One accepted header never takes the median back. */
  lemma MedianStep(nodes: Nodes, base: int, root: Hash, h: Hash)
    requires Tree(nodes, base, root) && h in nodes && h != root
    requires nodes[h].prev in nodes
    requires nodes[h].time > MedianTime(nodes, base, root, nodes[h].prev)
    ensures MedianTime(nodes, base, root, h) >= MedianTime(nodes, base, root, nodes[h].prev)
  {
    var p := nodes[h].prev;
    WindowTake(nodes, base, root, p, SPAN - 1);
    var w := Window(nodes, base, root, p, SPAN);
    assert Window(nodes, base, root, h, SPAN) == [nodes[h].time] + Window(nodes, base, root, p, SPAN - 1);
    if |w| == SPAN {
      SlidingMedian(w, nodes[h].time);
    } else {
      GrowingMedian(w, nodes[h].time);
    }
  }

  /** What the time check of `Add` leaves true of every header above the anchor. */
  ghost predicate TimesChecked(ix: Index)
    requires ix.Valid()
  {
    forall h {:trigger TimeChecked(ix, h)} ::
      h in ix.nodes && ix.nodes[h].height >= ix.base + ix.trusted ==> TimeChecked(ix, h)
  }

  ghost predicate TimeChecked(ix: Index, h: Hash)
    requires ix.Valid() && h in ix.nodes
  {
    ix.nodes[h].prev in ix.nodes &&
    ix.nodes[h].time > MedianTime(ix.nodes, ix.base, ix.active[0], ix.nodes[h].prev)
  }

  /** Median time past (BIP 113) never decreases along any accepted branch, from the
      anchor's end up, with full windows or the short ones near the base. */
  lemma {:induction false} MedianAlongBranch(ix: Index, h: Hash, k: nat)
    requires ix.Valid() && TimesChecked(ix) && h in ix.nodes
    requires ix.trusted - 1 <= k < |ix.Branch(h)|
    ensures ix.Branch(h)[k] in ix.nodes
    ensures MedianTime(ix.nodes, ix.base, ix.active[0], ix.Branch(h)[k])
         <= MedianTime(ix.nodes, ix.base, ix.active[0], h)
    decreases ix.nodes[h].height - ix.base
  {
    PathShape(ix.nodes, ix.base, ix.active[0], h);
    assert InTree(ix.nodes, ix.base, ix.active[0], h);
    if k + 1 < |ix.Branch(h)| {
      assert h != ix.active[0];
      assert TimeChecked(ix, h);
      var p := ix.nodes[h].prev;
      assert ix.Branch(h) == ix.Branch(p) + [h];
      MedianAlongBranch(ix, p, k);
      MedianStep(ix.nodes, ix.base, ix.active[0], h);
    }
  }

  lemma {:induction false} WindowFrame(nodes: Nodes, base: int, root: Hash, n: Header, h: Hash, k: nat)
    requires Tree(nodes, base, root) && h in nodes && n.hash !in nodes
    requires Tree(nodes[n.hash := n], base, root)
    ensures Window(nodes[n.hash := n], base, root, h, k) == Window(nodes, base, root, h, k)
    decreases k
  {
    assert InTree(nodes, base, root, h);
    if k > 0 && h != root {
      WindowFrame(nodes, base, root, n, nodes[h].prev, k - 1);
    }
  }

  lemma GrownTimes(ix: Index, n: Header)
    requires ix.Valid() && TimesChecked(ix) && CanGrow(ix, n)
    requires n.time > MedianTime(ix.nodes, ix.base, ix.active[0], n.prev)
    ensures Grown(ix, n).Valid() && TimesChecked(Grown(ix, n))
  {
    GrownValid(ix, n);
    var g := Grown(ix, n);
    var root := ix.active[0];
    assert g.active[0] == root by { assert g.active[..ix.trusted][0] == ix.active[..ix.trusted][0]; }
    forall h | h in g.nodes && g.nodes[h].height >= g.base + g.trusted
      ensures TimeChecked(g, h)
    {
      if h != n.hash { assert TimeChecked(ix, h); }
      WindowFrame(ix.nodes, ix.base, root, n, g.nodes[h].prev, SPAN);
    }
  }

  // ---- runs ------------------------------------------------------------------

  /** One header as `Decode` reads it, with what the checks outside this model say of
      it: its work, and whether proof, difficulty and merged-mining rules hold. */
  datatype Candidate = Candidate(hash: Hash, prev: Hash, time: int, step: int, proven: bool)

  /** The clock and the mode `Add` runs under, and the network's limits. */
  datatype Setting = Setting(now: int, stored: bool, maxReorg: nat, bip94: bool, interval: nat)

  function Made(ix: Index, c: Candidate): Header
    requires c.prev in ix.nodes
  {
    var p := ix.nodes[c.prev];
    Header(c.hash, c.prev, c.time, p.height + 1, p.work + c.step)
  }

  /** The conditions under which `Add` puts a header into the index. */
  ghost predicate Accepts(ix: Index, c: Candidate, e: Setting)
    requires ix.Valid()
  {
    && c.hash !in ix.nodes && c.prev in ix.nodes
    && var p := ix.nodes[c.prev];
    && p.height >= ix.base + ix.trusted - 1
    && !(e.maxReorg > 0 && !e.stored && ix.Tip().height - p.height >= e.maxReorg && e.now - ix.Tip().time <= 43200)
    && c.proven
    && MedianTime(ix.nodes, ix.base, ix.active[0], c.prev) < c.time <= e.now + 7200
    && !(e.bip94 && e.interval > 0 && (p.height + 1) % e.interval == 0 && c.time < p.time - 600)
  }

  ghost function Step(ix: Index, c: Candidate, e: Setting): (r: Index)
    requires ix.Valid() && c.hash != FILLER
  {
    if Accepts(ix, c, e) then Grown(ix, Made(ix, c)) else ix
  }

  ghost predicate Sound(ix: Index) { ix.Valid() && TimesChecked(ix) }

  /** What no `Add` ever undoes: the anchor prefix, the headers it holds, and the work
      of its tip. */
  ghost predicate Extends(ix: Index, s: Index)
    requires ix.HasTip() && s.HasTip()
  {
    && s.base == ix.base && s.trusted == ix.trusted
    && s.active[..s.trusted] == ix.active[..ix.trusted]
    && (forall h :: h in ix.nodes ==> h in s.nodes && s.nodes[h] == ix.nodes[h])
    && ix.Tip().work <= s.Tip().work
    && (s.active != ix.active ==> s.Tip().work > ix.Tip().work)
  }

  /** One `Add`, whatever it is given, keeps the index sound and the tip moves only to
      strictly more work. */
  lemma StepKeeps(ix: Index, c: Candidate, e: Setting)
    requires Sound(ix) && c.hash != FILLER
    ensures Sound(Step(ix, c, e)) && Extends(ix, Step(ix, c, e))
  {
    if Accepts(ix, c, e) {
      var n := Made(ix, c);
      GrownTimes(ix, n);
      GrownValid(ix, n);
      var g := Grown(ix, n);
      if g.active != ix.active {
        TreeGrows(ix.nodes, ix.base, ix.active[0], n);
        PathShape(g.nodes, ix.base, ix.active[0], c.hash);
      }
    }
  }

  lemma ExtendsTransitive(a: Index, b: Index, c: Index)
    requires a.HasTip() && b.HasTip() && c.HasTip() && Extends(a, b) && Extends(b, c)
    ensures Extends(a, c)
  {
  }

  /** After any sequence of `Add` calls the active chain is the parent-linked branch
      from the base to a header of maximal work, and it still begins with the anchor. */
  ghost function Run(ix: Index, inputs: seq<(Candidate, Setting)>): (s: Index)
    requires Sound(ix)
    requires forall i :: 0 <= i < |inputs| ==> inputs[i].0.hash != FILLER
    ensures Sound(s) && Extends(ix, s)
    decreases |inputs|
  {
    if inputs == [] then ix
    else
      var next := Step(ix, inputs[0].0, inputs[0].1);
      StepKeeps(ix, inputs[0].0, inputs[0].1);
      var s := Run(next, inputs[1..]);
      ExtendsTransitive(ix, next, s);
      s
  }
}
