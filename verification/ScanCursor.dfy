/** The block scan of a chain without filters (`Reconcile`, `ScanBlocks` and `Watch`,
    src/btclight.cpp): `scan` is the next height to read and `scanHash` the block
    before it, kept so that a reorganisation can send the scan back.  `log` is
    specification only: the batches that were read, and for which scripts. */
module ScanCursor {
  import opened HeaderIndex
  import opened LightHeaders
  import opened KeptBlocks

  // ---- shared prefixes ---------------------------------------------------------

  function CommonLen(a: seq<Hash>, b: seq<Hash>): nat {
    if a == [] || b == [] || a[0] != b[0] then 0 else 1 + CommonLen(a[1..], b[1..])
  }

  /** It is the longest prefix the two have in common. */
  lemma {:induction false} CommonLenIs(a: seq<Hash>, b: seq<Hash>, k: nat)
    requires k <= |a| && k <= |b|
    ensures a[..k] == b[..k] <==> k <= CommonLen(a, b)
    ensures CommonLen(a, b) <= |a| && CommonLen(a, b) <= |b|
    decreases |a|
  {
    if a != [] && b != [] && a[0] == b[0] {
      CommonLenIs(a[1..], b[1..], if k == 0 then 0 else k - 1);
      if k > 0 {
        assert a[..k] == [a[0]] + a[1..][..k - 1];
        assert b[..k] == [b[0]] + b[1..][..k - 1];
      }
    } else if k > 0 {
      assert a[..k][0] == a[0] && b[..k][0] == b[0];
    }
  }

  /** Height of the last header the branch of `h` shares with the active chain. */
  ghost function ForkOf(ix: Index, h: Hash): int
    requires ix.Valid() && h in ix.nodes
  {
    ix.base + CommonLen(ix.Branch(h), ix.active) - 1
  }

  lemma ForkIs(ix: Index, h: Hash, r: int)
    requires ix.Valid() && h in ix.nodes && ForksAt(ix, h, r)
    ensures r == ForkOf(ix, h)
  {
    var p, k := ix.Branch(h), r - ix.base;
    CommonLenIs(p, ix.active, k + 1);
    if k + 2 <= |p| && k + 2 <= |ix.active| {
      CommonLenIs(p, ix.active, k + 2);
      assert p[..k + 2] != ix.active[..k + 2] by {
        assert p[..k + 2][k + 1] != ix.active[..k + 2][k + 1];
      }
    }
  }

  /** A header on the active chain forks at its own height. */
  lemma ForkOfActive(ix: Index, k: nat)
    requires ix.Valid() && k < |ix.active|
    ensures ix.active[k] in ix.nodes && ForkOf(ix, ix.active[k]) == ix.base + k
    ensures ix.Branch(ix.active[k]) == ix.active[..k + 1]
  {
    PathPrefix(ix.nodes, ix.base, ix.active[0], ix.active[|ix.active| - 1], k);
    var p := ix.Branch(ix.active[k]);
    CommonLenIs(p, ix.active, k + 1);
  }

  lemma ActiveForks(ix: Index, h: Hash)
    requires ix.Valid() && h in ix.nodes
    ensures ix.base <= ForkOf(ix, h) < ix.base + |ix.active|
    ensures h in ix.active ==> ForkOf(ix, h) == ix.nodes[h].height
  {
    PathShape(ix.nodes, ix.base, ix.active[0], h);
    CommonLenIs(ix.Branch(h), ix.active, 1);
    assert ix.Branch(h)[..1] == ix.active[..1];
    if h in ix.active {
      var k :| 0 <= k < |ix.active| && ix.active[k] == h;
      ForkOfActive(ix, k);
      ActiveShape(ix);
    }
  }

  // ---- what is old for a script ----------------------------------------------------

  ghost function TimeAt(ix: Index, height: int): int
    requires ix.Valid() && ix.base <= height < ix.base + |ix.active|
  {
    ActiveShape(ix);
    ix.nodes[ix.active[height - ix.base]].time
  }

  ghost function MedianAt(ix: Index, height: int): int
    requires ix.Valid() && ix.base <= height < ix.base + |ix.active|
  {
    ActiveShape(ix);
    MedianTime(ix.nodes, ix.base, ix.active[0], ix.active[height - ix.base])
  }

  ghost predicate OldAt(ix: Index, start: int, b: Hash, h: Hash)
    requires ix.Valid()
  {
    && h in ix.nodes && b in ix.Branch(h)
    && (ix.nodes[h].time < start || MedianTime(ix.nodes, ix.base, ix.active[0], h) < start)
  }

  /** A block is before `start` when it is, or is below, one whose time or whose median
      time is. */
  ghost predicate Old(ix: Index, start: int, b: Hash)
    requires ix.Valid()
  {
    exists h :: OldAt(ix, start, b, h)
  }

  /** Above the anchor that is a statement about the block itself. */
  lemma OldMeans(ix: Index, start: int, b: Hash)
    requires Sound(ix) && Old(ix, start, b) && b in ix.nodes && ix.nodes[b].height >= ix.base + ix.trusted - 1
    ensures ix.nodes[b].time < start || MedianTime(ix.nodes, ix.base, ix.active[0], b) < start
  {
    hide MedianTime;
    var h :| OldAt(ix, start, b, h);
    var root := ix.active[0];
    PathShape(ix.nodes, ix.base, root, h);
    var k :| 0 <= k < |ix.Branch(h)| && ix.Branch(h)[k] == b;
    MedianAlongBranch(ix, h, k);
    if h != b && ix.nodes[h].time < start {
      assert InTree(ix.nodes, ix.base, root, h);
      assert TimeChecked(ix, h);
      assert ix.Branch(h) == ix.Branch(ix.nodes[h].prev) + [h];
      MedianAlongBranch(ix, ix.nodes[h].prev, k);
    }
  }

  /** Being before a time is for good: new headers leave branches and medians alone. */
  lemma OldStays(ix: Index, h: Candidate, e: Setting, start: int, b: Hash)
    requires Sound(ix) && h.hash != FILLER && Old(ix, start, b)
    ensures Sound(Step(ix, h, e)) && Old(Step(ix, h, e), start, b)
  {
    StepKeeps(ix, h, e);
    var s, x, root := Step(ix, h, e), FrameOld(ix, start, b), ix.active[0];
    if Accepts(ix, h, e) {
      StepBranch(ix, h, e, x);
      TreeGrows(ix.nodes, ix.base, root, Made(ix, h));
      WindowFrame(ix.nodes, ix.base, root, Made(ix, h), x, SPAN);
    }
    assert OldAt(s, start, b, x);
  }

  ghost function FrameOld(ix: Index, start: int, b: Hash): (x: Hash)
    requires ix.Valid() && Old(ix, start, b)
    ensures OldAt(ix, start, b, x)
  {
    var x :| OldAt(ix, start, b, x);
    x
  }

  lemma StepBranch(ix: Index, h: Candidate, e: Setting, x: Hash)
    requires Sound(ix) && h.hash != FILLER && x in ix.nodes
    ensures Step(ix, h, e).Valid() && Step(ix, h, e).active[0] == ix.active[0]
    ensures x in Step(ix, h, e).nodes && Step(ix, h, e).Branch(x) == ix.Branch(x)
  {
    hide TimesChecked;
    StepKeeps(ix, h, e);
    var s := Step(ix, h, e);
    assert s.active[0] == ix.active[0] by { assert s.active[..s.trusted][0] == ix.active[..ix.trusted][0]; }
    if Accepts(ix, h, e) {
      TreeGrows(ix.nodes, ix.base, ix.active[0], Made(ix, h));
      PathFrame(ix.nodes, ix.base, ix.active[0], Made(ix, h), x);
    }
  }

  /** Where the window of a contract starts: down from `height` while the block below is
      no older than `start`. */
  ghost function WindowFrom(ix: Index, start: int, height: int): (r: int)
    requires ix.Valid() && ix.base <= height < ix.base + |ix.active|
    ensures ix.base <= r <= height && (height > ix.base ==> r > ix.base)
    ensures r <= ix.base + 1 || TimeAt(ix, r - 1) < start
    decreases height - ix.base
  {
    if height > ix.base + 1 && TimeAt(ix, height - 1) >= start then WindowFrom(ix, start, height - 1) else height
  }

  ghost function WindowStart(ix: Index, start: int): (r: int)
    requires ix.Valid()
    ensures ix.base <= r < ix.base + |ix.active|
  {
    WindowFrom(ix, start, ix.base + |ix.active| - 1)
  }

  /** Every active block below a window is before its start. */
  lemma WindowOld(ix: Index, start: int, k: nat)
    requires ix.Valid() && 1 <= k < WindowStart(ix, start) - ix.base
    ensures Old(ix, start, ix.active[k])
  {
    hide MedianTime;
    var n := WindowStart(ix, start) - 1 - ix.base;
    ForkOfActive(ix, n);
    assert ix.Branch(ix.active[n])[k] == ix.active[k];
    assert OldAt(ix, start, ix.active[k], ix.active[n]);
  }

  // ---- the cursor ---------------------------------------------------------------

  /** A batch: its blocks, the scripts watched then and those it was matched against, with
      the headers and the kept blocks it started from. */
  datatype Batch = Batch(blocks: set<Hash>, watched: set<Script>, wanted: set<Script>, ix: Index, kept: set<Hash>)

  /** `starts` has each watched script with the start of its window, `kept` the blocks that
      were kept. */
  datatype Cursor = Cursor(scan: int, hash: Hash, starts: map<Script, int>, birthday: int, log: seq<Batch>, kept: set<Hash>)

  function Min(a: int, b: int): int { if a < b then a else b }

  function Max(a: int, b: int): int { if a > b then a else b }

  ghost predicate ReadFor(log: seq<Batch>, w: Script, b: Hash) {
    exists i :: 0 <= i < |log| && b in log[i].blocks && w in log[i].wanted
  }

  /** The block went by in a batch while the contract was complete: watched, not wanted. */
  ghost predicate PassedFor(log: seq<Batch>, w: Script, b: Hash) {
    exists i :: 0 <= i < |log| && b in log[i].blocks && w in log[i].watched && w !in log[i].wanted
  }

  /** What a block has for a script is not lost: it is kept if it pays the script, and if it
      spends such a payment that a kept block below it made. */
  ghost predicate Kept(bk: Book, ix: Index, kept: set<Hash>, w: Script, b: Hash)
    requires ix.Valid()
  {
    && (forall o :: Funds(bk, b, o, w) ==> b in kept)
    && (b in ix.nodes ==>
          forall a, o {:trigger Funds(bk, a, o, w), Spends(bk, b, o)} ::
            a in ix.Branch(b) && a in kept && Funds(bk, a, o, w) && Spends(bk, b, o) ==> b in kept)
  }

  ghost predicate Covered(bk: Book, ix: Index, c: Cursor, w: Script, b: Hash)
    requires ix.Valid() && w in c.starts
  {
    PassedFor(c.log, w, b) || Old(ix, c.starts[w], b) || (ReadFor(c.log, w, b) && Kept(bk, ix, c.kept, w, b))
  }

  /** What `Reconcile` does to a cursor: back to just above the last shared header, or
      to the start when the block is unknown, and never past the tip. */
  ghost function Reconciled(ix: Index, c: Cursor): Cursor
    requires ix.Valid()
  {
    var floor := ix.base + 1;
    var top := Max(floor, Min(c.scan, ix.base + |ix.active|));
    var scan := if c.hash == FILLER then top
                else if c.hash !in ix.nodes then floor
                else (CommonLenIs(ix.Branch(c.hash), ix.active, 0); Max(floor, Min(c.scan, ForkOf(ix, c.hash) + 1)));
    c.(scan := scan, hash := ix.active[scan - 1 - ix.base])
  }

  /** Every block of the branch last scanned is covered for every watched script. */
  ghost predicate BranchCovered(bk: Book, ix: Index, c: Cursor)
    requires ix.Valid()
  {
    c.hash in ix.nodes &&
    forall w, k :: w in c.starts && 1 <= k < |ix.Branch(c.hash)| ==> Covered(bk, ix, c, w, ix.Branch(c.hash)[k])
  }

  /** Every active block below the cursor is covered for every watched script. */
  ghost predicate CursorCovered(bk: Book, ix: Index, c: Cursor)
    requires ix.Valid()
  {
    && ix.base + 1 <= c.scan <= ix.base + |ix.active|
    && forall w, k :: w in c.starts && 1 <= k < c.scan - ix.base ==> Covered(bk, ix, c, w, ix.active[k])
  }

  /** A cursor that a `Reconcile` can start from: the scanned branch is covered, or the
      cursor is at the very bottom and everything will be read again. */
  ghost predicate Resumable(bk: Book, ix: Index, c: Cursor)
    requires ix.Valid()
  {
    c.hash in ix.nodes && (c.scan > ix.base ==> BranchCovered(bk, ix, c))
  }

  /** No window starts before `birthday`; zero is no birthday. */
  ghost predicate BirthdayOk(c: Cursor) {
    c.birthday == 0 || forall w :: w in c.starts ==> c.birthday <= c.starts[w]
  }

  /** After `Reconcile` every active header below the cursor is an ancestor of, or is,
      the block last scanned, unless the cursor is back at the start; and the cursor is
      the highest for which that holds. */
  lemma ReconcileExact(ix: Index, c: Cursor)
    requires ix.Valid() && c.hash != FILLER
    ensures var r := Reconciled(ix, c);
            && ix.base + 1 <= r.scan <= ix.base + |ix.active|
            && (r.scan == ix.base + 1 ||
                (c.hash in ix.nodes && r.scan <= c.scan && r.scan - ix.base <= |ix.Branch(c.hash)| &&
                 ix.Branch(c.hash)[..r.scan - ix.base] == ix.active[..r.scan - ix.base]))
    ensures c.hash in ix.nodes ==>
            forall k :: Reconciled(ix, c).scan - ix.base < k <= c.scan - ix.base && k <= |ix.active| && k <= |ix.Branch(c.hash)|
                        ==> ix.Branch(c.hash)[..k] != ix.active[..k]
  {
    if c.hash in ix.nodes {
      var p, n := ix.Branch(c.hash), Reconciled(ix, c).scan - ix.base;
      CommonLenIs(p, ix.active, 0);
      if n <= CommonLen(p, ix.active) { CommonLenIs(p, ix.active, n); }
      forall k | n < k <= c.scan - ix.base && k <= |ix.active| && k <= |p|
        ensures p[..k] != ix.active[..k]
      {
        CommonLenIs(p, ix.active, k);
      }
    }
  }

  /** A reorganisation skips no block. */
  lemma ReconcileCovers(bk: Book, ix: Index, c: Cursor)
    requires ix.Valid() && c.hash != FILLER && Resumable(bk, ix, c)
    ensures CursorCovered(bk, ix, Reconciled(ix, c)) && BranchCovered(bk, ix, Reconciled(ix, c))
  {
    hide Covered;
    ReconcileExact(ix, c);
    var r := Reconciled(ix, c);
    var n := r.scan - ix.base;
    SameCover(bk, ix, c, r);
    if n > 1 {
      var p := ix.Branch(c.hash);
      forall k | 1 <= k < n
        ensures ix.active[k] == p[k]
      {
        assert p[..n][k] == ix.active[..n][k];
      }
    }
    HashJustBelow(ix, r);
    HashBelowScan(bk, ix, r);
  }

  /** Coverage does not depend on where the cursor stands. */
  lemma SameCover(bk: Book, ix: Index, c: Cursor, d: Cursor)
    requires ix.Valid() && d.log == c.log && d.kept == c.kept && forall w :: w in c.starts ==> w in d.starts && d.starts[w] == c.starts[w]
    ensures forall w, b {:trigger Covered(bk, ix, d, w, b)} {:trigger Covered(bk, ix, c, w, b)} ::
              w in c.starts ==> (Covered(bk, ix, d, w, b) <==> Covered(bk, ix, c, w, b))
  {
  }

  /** The block last scanned is on the active chain, below the cursor. */
  ghost predicate HashBelow(ix: Index, c: Cursor)
    requires ix.Valid()
  {
    c.hash in ix.active && c.hash in ix.nodes && ix.nodes[c.hash].height < c.scan
  }

  /** Such a cursor has both coverages at once. */
  lemma HashBelowScan(bk: Book, ix: Index, c: Cursor)
    requires ix.Valid() && CursorCovered(bk, ix, c) && HashBelow(ix, c)
    ensures BranchCovered(bk, ix, c)
  {
    hide Covered;
    ActiveShape(ix);
    var n :| 0 <= n < |ix.active| && ix.active[n] == c.hash;
    ForkOfActive(ix, n);
  }

  lemma HashJustBelow(ix: Index, c: Cursor)
    requires ix.Valid() && ix.base < c.scan <= ix.base + |ix.active| && c.hash == ix.active[c.scan - 1 - ix.base]
    ensures HashBelow(ix, c)
  {
    ActiveShape(ix);
  }

  /** Adding headers cannot lose the coverage of the branch last scanned. */
  lemma StepCovers(bk: Book, ix: Index, c: Cursor, h: Candidate, e: Setting)
    requires Sound(ix) && Resumable(bk, ix, c) && h.hash != FILLER
    ensures Sound(Step(ix, h, e)) && Resumable(bk, Step(ix, h, e), c)
  {
    hide Old;
    StepKeeps(ix, h, e);
    var s := Step(ix, h, e);
    StepBranch(ix, h, e, c.hash);
    forall w, k | c.scan > ix.base && w in c.starts && 1 <= k < |s.Branch(c.hash)|
      ensures Covered(bk, s, c, w, s.Branch(c.hash)[k])
    {
      var b := ix.Branch(c.hash)[k];
      assert Covered(bk, ix, c, w, b);
      PathShape(ix.nodes, ix.base, ix.active[0], c.hash);
      StepBranch(ix, h, e, b);
      if Old(ix, c.starts[w], b) {
        OldStays(ix, h, e, c.starts[w], b);
      }
    }
  }

  // ---- reading and passing over ------------------------------------------------------

  ghost function Between(ix: Index, from: int, stop: int): seq<Hash>
    requires ix.Valid() && ix.base < from && from - 1 <= stop < ix.base + |ix.active|
  {
    ix.active[from - ix.base..stop + 1 - ix.base]
  }

  /** The scripts a batch looks for. */
  ghost function Wanted(bk: Book, ix: Index, c: Cursor): (r: set<Script>)
    requires ix.Valid()
  {
    set w | w in c.starts && !Complete(bk, ix, c.kept, w)
  }

  /** The blocks kept once those up to `stop` have been read. */
  ghost function NowKept(bk: Book, ix: Index, c: Cursor, stop: int): set<Hash>
    requires ix.Valid() && ix.base < c.scan && c.scan - 1 <= stop < ix.base + |ix.active|
  {
    if Wanted(bk, ix, c) == {} then c.kept
    else c.kept + Found(bk, Between(ix, c.scan, stop), Wanted(bk, ix, c), PaidTo(Known(bk, ix, c.kept), c.starts.Keys))
  }

  ghost function BatchOf(bk: Book, ix: Index, c: Cursor, from: int, stop: int): Batch
    requires ix.Valid() && ix.base < from && from - 1 <= stop < ix.base + |ix.active|
  {
    Batch((set b | b in Between(ix, from, stop)), c.starts.Keys, Wanted(bk, ix, c), ix, c.kept)
  }

  /** The end of a batch.  When every contract is complete nothing is read. */
  ghost function Advanced(bk: Book, ix: Index, c: Cursor, stop: int): Cursor
    requires ix.Valid() && ix.base < c.scan && c.scan - 1 <= stop < ix.base + |ix.active|
  {
    c.(scan := stop + 1, hash := ix.active[stop - ix.base], kept := NowKept(bk, ix, c, stop),
    log := c.log + [BatchOf(bk, ix, c, c.scan, stop)])
  }

  /** A batch that broke off, or that a new watch overtook, after the block at `upto`. */
  ghost function BrokenOff(bk: Book, ix: Index, c: Cursor, upto: int): Cursor
    requires ix.Valid() && ix.base < c.scan && c.scan - 1 <= upto < ix.base + |ix.active|
  {
    c.(kept := NowKept(bk, ix, c, upto))
  }

  /** Blocks on the active chain are kept from the cursor up only. */
  lemma KeptAbove(bk: Book, ix: Index, c: Cursor, stop: int)
    requires ix.Valid() && ix.base < c.scan && c.scan - 1 <= stop < ix.base + |ix.active|
    ensures c.kept <= NowKept(bk, ix, c, stop)
    ensures forall k :: 0 <= k < c.scan - ix.base && ix.active[k] in NowKept(bk, ix, c, stop) ==> ix.active[k] in c.kept
    ensures forall b :: b in NowKept(bk, ix, c, stop) && b !in c.kept ==> b in Between(ix, c.scan, stop)
  {
    ActiveShape(ix);
    var blocks := Between(ix, c.scan, stop);
    FoundAre(bk, blocks, Wanted(bk, ix, c), PaidTo(Known(bk, ix, c.kept), c.starts.Keys));
    forall b | b in blocks ensures b in ix.nodes && ix.nodes[b].height >= c.scan {
      var k :| 0 <= k < |blocks| && blocks[k] == b;
      assert b == ix.active[k + c.scan - ix.base];
    }
  }

  /** Below the cursor nothing changes. */
  lemma KeptBelow(bk: Book, ix: Index, c: Cursor, stop: int, w: Script, k: nat)
    requires ix.Valid() && ix.base < c.scan && c.scan - 1 <= stop < ix.base + |ix.active|
    requires k < c.scan - ix.base && Kept(bk, ix, c.kept, w, ix.active[k])
    ensures Kept(bk, ix, NowKept(bk, ix, c, stop), w, ix.active[k])
  {
    hide NowKept, Funds, Spends;
    KeptAbove(bk, ix, c, stop);
    ForkOfActive(ix, k);
    var b := ix.active[k];
    forall a, o | a in ix.Branch(b) && a in NowKept(bk, ix, c, stop) && Funds(bk, a, o, w) && Spends(bk, b, o)
      ensures b in NowKept(bk, ix, c, stop)
    {
      var j :| 0 <= j < |ix.Branch(b)| && ix.Branch(b)[j] == a;
      assert a == ix.active[j];
      assert a in c.kept;
    }
  }

  /** What was read for a script is kept. */
  lemma KeptRead(bk: Book, ix: Index, c: Cursor, stop: int, w: Script, k: nat)
    requires Honest(bk) && ix.Valid() && ix.base < c.scan && c.scan - 1 <= stop < ix.base + |ix.active|
    requires c.scan - ix.base <= k <= stop - ix.base && w in Wanted(bk, ix, c)
    ensures Kept(bk, ix, NowKept(bk, ix, c, stop), w, ix.active[k])
  {
    hide Funds, Spends, NowKept, Wanted;
    var b := ix.active[k];
    ForkOfActive(ix, k);
    forall o | Funds(bk, b, o, w) ensures b in NowKept(bk, ix, c, stop) {
      KeptPays(bk, ix, c, stop, w, k, o);
    }
    forall a, o | a in ix.Branch(b) && a in NowKept(bk, ix, c, stop) && Funds(bk, a, o, w) && Spends(bk, b, o)
      ensures b in NowKept(bk, ix, c, stop)
    {
      var j :| 0 <= j < |ix.Branch(b)| && ix.Branch(b)[j] == a;
      assert a == ix.active[j];
      KeptSpends(bk, ix, c, stop, w, j, k, o);
    }
  }

  lemma KeptPays(bk: Book, ix: Index, c: Cursor, stop: int, w: Script, k: nat, o: OutPoint)
    requires ix.Valid() && ix.base < c.scan && c.scan - 1 <= stop < ix.base + |ix.active|
    requires c.scan - ix.base <= k <= stop - ix.base && w in Wanted(bk, ix, c) && Funds(bk, ix.active[k], o, w)
    ensures ix.active[k] in NowKept(bk, ix, c, stop)
    ensures o in PaidBy(bk(ix.active[k]), Wanted(bk, ix, c))
  {
    hide Funds, Spends, Found, PaidTo, PaidBy, Known, Wanted;
    var blocks := Between(ix, c.scan, stop);
    assert blocks[k + ix.base - c.scan] == ix.active[k];
    FoundPays(bk, blocks, Wanted(bk, ix, c), PaidTo(Known(bk, ix, c.kept), c.starts.Keys), k + ix.base - c.scan, o, w);
  }

  lemma KeptSpends(bk: Book, ix: Index, c: Cursor, stop: int, w: Script, j: nat, k: nat, o: OutPoint)
    requires Honest(bk) && ix.Valid() && ix.base < c.scan && c.scan - 1 <= stop < ix.base + |ix.active|
    requires c.scan - ix.base <= k <= stop - ix.base && j <= k && w in Wanted(bk, ix, c)
    requires ix.active[j] in NowKept(bk, ix, c, stop) && Funds(bk, ix.active[j], o, w) && Spends(bk, ix.active[k], o)
    ensures ix.active[k] in NowKept(bk, ix, c, stop)
  {
    hide Honest, Funds, Spends, Found, PaidTo, PaidBy, Known, Complete;
    var wanted, paid := Wanted(bk, ix, c), PaidTo(Known(bk, ix, c.kept), c.starts.Keys);
    var blocks, n := Between(ix, c.scan, stop), c.scan - ix.base;
    assert blocks[k - n] == ix.active[k];
    if ix.active[j] in c.kept {
      ActiveShape(ix);
      PaidHas(bk, ix, c.kept, c.starts.Keys, ix.active[j], o, w);
      FoundSpends(bk, blocks, wanted, paid, k - n, o);
    } else if j < k {
      KeptAbove(bk, ix, c, stop);
      NotBelow(ix, c.scan, stop, j);
      KeptPays(bk, ix, c, stop, w, j, o);
      assert blocks[j - n] == ix.active[j];
      FoundSpends(bk, blocks, wanted, paid, k - n, o);
    }
  }

  lemma NotBelow(ix: Index, from: int, stop: int, j: nat)
    requires ix.Valid() && ix.base < from && from - 1 <= stop < ix.base + |ix.active|
    requires j < |ix.active| && ix.active[j] in Between(ix, from, stop)
    ensures j >= from - ix.base
  {
    ActiveShape(ix);
    var blocks := Between(ix, from, stop);
    var k :| 0 <= k < |blocks| && blocks[k] == ix.active[j];
    assert blocks[k] == ix.active[k + from - ix.base];
  }

  lemma BrokenCovers(bk: Book, ix: Index, c: Cursor, upto: int)
    requires ix.Valid() && CursorCovered(bk, ix, c) && HashBelow(ix, c) && c.scan - 1 <= upto < ix.base + |ix.active|
    ensures CursorCovered(bk, ix, BrokenOff(bk, ix, c, upto)) && BranchCovered(bk, ix, BrokenOff(bk, ix, c, upto))
    ensures HashBelow(ix, BrokenOff(bk, ix, c, upto))
  {
    hide Old, Kept, NowKept;
    var r := BrokenOff(bk, ix, c, upto);
    forall w, k | w in r.starts && 1 <= k < r.scan - ix.base
      ensures Covered(bk, ix, r, w, ix.active[k])
    {
      assert Covered(bk, ix, c, w, ix.active[k]);
      if Kept(bk, ix, c.kept, w, ix.active[k]) {
        KeptBelow(bk, ix, c, upto, w, k);
      }
    }
    HashBelowScan(bk, ix, r);
  }

  lemma AdvancedCovers(bk: Book, ix: Index, c: Cursor, stop: int)
    requires Honest(bk) && ix.Valid() && CursorCovered(bk, ix, c) && c.scan - 1 <= stop < ix.base + |ix.active|
    ensures CursorCovered(bk, ix, Advanced(bk, ix, c, stop)) && BranchCovered(bk, ix, Advanced(bk, ix, c, stop))
    ensures HashBelow(ix, Advanced(bk, ix, c, stop))
  {
    hide Old, Kept, NowKept, Wanted;
    var r := Advanced(bk, ix, c, stop);
    var n := |c.log|;
    forall w, k | w in r.starts && 1 <= k < r.scan - ix.base
      ensures Covered(bk, ix, r, w, ix.active[k])
    {
      if k >= c.scan - ix.base {
        assert ix.active[k] in r.log[n].blocks by {
          assert Between(ix, c.scan, stop)[k + ix.base - c.scan] == ix.active[k];
        }
        if w in Wanted(bk, ix, c) {
          assert ReadFor(r.log, w, ix.active[k]);
          KeptRead(bk, ix, c, stop, w, k);
        } else {
          assert PassedFor(r.log, w, ix.active[k]);
        }
      } else {
        LogGrows(c.log, r.log, w, ix.active[k]);
        assert Covered(bk, ix, c, w, ix.active[k]);
        if Kept(bk, ix, c.kept, w, ix.active[k]) {
          KeptBelow(bk, ix, c, stop, w, k);
        }
      }
    }
    HashJustBelow(ix, r);
    HashBelowScan(bk, ix, r);
  }

  lemma LogGrows(a: seq<Batch>, b: seq<Batch>, w: Script, x: Hash)
    requires a <= b
    ensures ReadFor(a, w, x) ==> ReadFor(b, w, x)
    ensures PassedFor(a, w, x) ==> PassedFor(b, w, x)
  {
    if ReadFor(a, w, x) {
      var i :| 0 <= i < |a| && x in a[i].blocks && w in a[i].wanted;
      assert b[i] == a[i];
    }
    if PassedFor(a, w, x) {
      var i :| 0 <= i < |a| && x in a[i].blocks && w in a[i].watched && w !in a[i].wanted;
      assert b[i] == a[i];
    }
  }

  /** With nothing watched the cursor follows the tip.  Below the base the code throws
      after the cursor was lowered. */
  ghost function Followed(ix: Index, c: Cursor, tip: int): (d: Cursor)
    requires ix.Valid() && tip < ix.base + |ix.active|
    ensures c.hash in ix.nodes ==> d.hash in ix.nodes
  {
    if tip < ix.base then c.(scan := tip + 1)
    else (ForkOfActive(ix, tip - ix.base); c.(scan := tip + 1, hash := ix.active[tip - ix.base]))
  }

  /** Which blocks may be passed over unread, without touching `scanHash`: those whose
      median time is two hours and more before every window. */
  ghost predicate CanSkip(ix: Index, c: Cursor, to: int)
    requires ix.Valid()
  {
    && ix.base < c.scan <= to <= ix.base + |ix.active|
    && (to > c.scan ==> c.birthday != 0)
    && forall k :: c.scan <= k < to ==> MedianAt(ix, k) < c.birthday - 7200
  }

  lemma SkippedCovers(bk: Book, ix: Index, c: Cursor, to: int)
    requires ix.Valid() && CursorCovered(bk, ix, c) && BranchCovered(bk, ix, c) && BirthdayOk(c) && CanSkip(ix, c, to)
    ensures CursorCovered(bk, ix, c.(scan := to)) && BranchCovered(bk, ix, c.(scan := to))
  {
    hide MedianTime;
    var r := c.(scan := to);
    SameCover(bk, ix, c, r);
    forall w, k | w in r.starts && c.scan - ix.base <= k < to - ix.base
      ensures Covered(bk, ix, r, w, ix.active[k])
    {
      ForkOfActive(ix, k);
      assert MedianAt(ix, ix.base + k) < c.birthday - 7200;
      assert OldAt(ix, r.starts[w], ix.active[k], ix.active[k]) by {
        assert ix.active[..k + 1][k] == ix.active[k];
      }
    }
  }

  // ---- watching ---------------------------------------------------------------------------

  /** `Watch`: the cursor drops to the start of the new contract's window.  On a chain
      with nothing above its base the code throws half-way: the script is watched and the
      cursor lowered, hash and birthday are as before. */
  ghost function Watched(ix: Index, c: Cursor, w: Script, start: int): Cursor
    requires ix.Valid()
  {
    if w in c.starts then c
    else
      var scan := Min(c.scan, WindowStart(ix, start));
      var d := c.(scan := scan, starts := c.starts[w := start]);
      if scan <= ix.base then d
      else d.(hash := ix.active[scan - 1 - ix.base],
              birthday := if c.birthday == 0 || start < c.birthday then start else c.birthday)
  }

  /** The kept blocks play no part in it. */
  lemma WatchedKept(ix: Index, c: Cursor, w: Script, start: int, kept: set<Hash>)
    requires ix.Valid()
    ensures Watched(ix, c.(kept := kept), w, start) == Watched(ix, c, w, start).(kept := kept)
  {
  }

  /** When a new watch loses nothing for the scripts watched before: the active blocks
      between the fork and the new cursor were covered already, and the birthday is not
      moved up past an older window. */
  ghost predicate Harmless(bk: Book, ix: Index, c: Cursor, start: int)
    requires ix.Valid() && c.hash in ix.nodes
  {
    var scan := Min(c.scan, WindowStart(ix, start));
    if scan <= ix.base then c.birthday == 0 || c.birthday <= start
    else
      && SeenToFork(bk, ix, c, scan)
      && (c.birthday != 0 || start == 0 || forall v :: v in c.starts ==> start <= c.starts[v])
  }

  ghost predicate SeenToFork(bk: Book, ix: Index, c: Cursor, scan: int)
    requires ix.Valid() && c.hash in ix.nodes
  {
    forall v, k: nat :: v in c.starts && k < |ix.active| && ForkOf(ix, c.hash) < ix.base + k < scan ==>
      Covered(bk, ix, c, v, ix.active[k])
  }

  /** The active chain below `scan` is covered exactly if what lies above the fork is. */
  lemma SeenExactly(bk: Book, ix: Index, c: Cursor, scan: int)
    requires ix.Valid() && BranchCovered(bk, ix, c) && ix.base < scan <= ix.base + |ix.active|
    ensures SeenToFork(bk, ix, c, scan) <==>
            forall v, k :: v in c.starts && 1 <= k < scan - ix.base ==> Covered(bk, ix, c, v, ix.active[k])
  {
    hide Covered;
    ActiveForks(ix, c.hash);
    var p, n := ix.Branch(c.hash), ForkOf(ix, c.hash) + 1 - ix.base;
    CommonLenIs(p, ix.active, 0);
    CommonLenIs(p, ix.active, n);
    forall k | 1 <= k < n
      ensures ix.active[k] == p[k]
    {
      assert p[..n][k] == ix.active[..n][k];
    }
  }

  lemma NewWindowCovered(bk: Book, ix: Index, d: Cursor, w: Script)
    requires ix.Valid() && w in d.starts && ix.base < d.scan <= WindowStart(ix, d.starts[w])
    ensures forall k :: 1 <= k < d.scan - ix.base ==> Covered(bk, ix, d, w, ix.active[k])
  {
    hide MedianTime, Old;
    forall k | 1 <= k < d.scan - ix.base
      ensures Covered(bk, ix, d, w, ix.active[k])
    {
      WindowOld(ix, d.starts[w], k);
    }
  }

  /** A watch, at whatever moment it lands, keeps the scan able to resume and the birthday
      below every window exactly if it is harmless. */
  lemma WatchExact(bk: Book, ix: Index, c: Cursor, w: Script, start: int)
    requires ix.Valid() && Resumable(bk, ix, c) && BirthdayOk(c) && w !in c.starts
    ensures var d := Watched(ix, c, w, start);
            Resumable(bk, ix, d) && BirthdayOk(d) <==> Harmless(bk, ix, c, start)
  {
    hide Covered;
    var d := Watched(ix, c, w, start);
    assert w in d.starts && d.starts[w] == start;
    assert forall v :: v in c.starts ==> v in d.starts && d.starts[v] == c.starts[v];
    SameCover(bk, ix, c, d);
    if d.scan > ix.base {
      var n := d.scan - 1 - ix.base;
      ForkOfActive(ix, n);
      SeenExactly(bk, ix, c, d.scan);
      NewWindowCovered(bk, ix, d, w);
      assert forall k :: 0 <= k <= n ==> ix.Branch(d.hash)[k] == ix.active[k];
    }
  }

  /** On a settled cursor the blocks are no issue, so only the birthday is. */
  lemma WatchSettled(bk: Book, ix: Index, c: Cursor, w: Script, start: int)
    requires ix.Valid() && CursorCovered(bk, ix, c) && BranchCovered(bk, ix, c) && w !in c.starts
    ensures WindowStart(ix, start) > ix.base ==>
              SeenToFork(bk, ix, c, Min(c.scan, WindowStart(ix, start))) && CursorCovered(bk, ix, Watched(ix, c, w, start))
  {
    hide Covered;
    var d := Watched(ix, c, w, start);
    assert forall v :: v in c.starts ==> v in d.starts && d.starts[v] == c.starts[v];
    SameCover(bk, ix, c, d);
    ActiveForks(ix, c.hash);
    if d.scan > ix.base {
      NewWindowCovered(bk, ix, d, w);
    }
  }

  // ---- runs --------------------------------------------------------------------

  /** One atomic step of the worker or of a caller.  `settled` is true from a
      `Reconcile` until the next header; only then does the worker scan. */
  datatype Event =
    | AddHeader(h: Candidate, e: Setting)
    | Reconcile
    | Follow(tip: int)
    | Skip(to: int)
    | Advance(stop: int)
    | BreakOff(upto: int)
    | Watch(w: Script, start: int)

  datatype System = System(ix: Index, c: Cursor, settled: bool)

  ghost predicate Inv(bk: Book, s: System) {
    && Honest(bk) && Sound(s.ix) && s.c.hash != FILLER
    && Resumable(bk, s.ix, s.c) && BirthdayOk(s.c) && LogTrue(bk, s.c)
    && (s.settled ==> CursorCovered(bk, s.ix, s.c) && HashBelow(s.ix, s.c))
  }

  /** A batch looked for a watched script exactly if it was not complete by the kept blocks
      on the chain of that time. */
  ghost predicate BatchTrue(bk: Book, b: Batch, kept: set<Hash>) {
    && b.ix.Valid() && b.kept <= kept && (forall x :: x in b.blocks ==> x in b.ix.active)
    && forall w :: w in b.watched ==> (w in b.wanted <==> !Complete(bk, b.ix, b.kept, w))
  }

  ghost predicate LogTrue(bk: Book, c: Cursor) {
    forall i :: 0 <= i < |c.log| ==> BatchTrue(bk, c.log[i], c.kept)
  }

  lemma LogMore(bk: Book, ix: Index, c: Cursor, stop: int)
    requires ix.Valid() && LogTrue(bk, c) && ix.base < c.scan && c.scan - 1 <= stop < ix.base + |ix.active|
    ensures LogTrue(bk, Advanced(bk, ix, c, stop)) && LogTrue(bk, BrokenOff(bk, ix, c, stop))
  {
    hide NowKept, Complete;
    KeptAbove(bk, ix, c, stop);
  }

  /** When an event can happen; a watch that is not harmless is left to `WatchExact`. */
  ghost predicate Enabled(bk: Book, s: System, ev: Event)
    requires Inv(bk, s)
  {
    match ev
    case AddHeader(h, e) => h.hash != FILLER
    case Reconcile => true
    case Follow(tip) => s.settled && s.c.starts == map[] && tip < s.ix.base + |s.ix.active|
    case Skip(to) => s.settled && CanSkip(s.ix, s.c, to)
    case Advance(stop) => s.settled && s.c.scan - 1 <= stop < s.ix.base + |s.ix.active|
    case BreakOff(upto) => s.settled && s.c.scan - 1 <= upto < s.ix.base + |s.ix.active|
    case Watch(w, start) => w in s.c.starts || Harmless(bk, s.ix, s.c, start)
  }

  ghost function Next(bk: Book, s: System, ev: Event): (t: System)
    requires Inv(bk, s) && Enabled(bk, s, ev)
    ensures Inv(bk, t)
  {
    match ev
    case AddHeader(h, e) =>
      StepCovers(bk, s.ix, s.c, h, e);
      System(Step(s.ix, h, e), s.c, false)
    case Reconcile =>
      ReconcileCovers(bk, s.ix, s.c);
      HashJustBelow(s.ix, Reconciled(s.ix, s.c));
      NeverFiller(s.ix, Reconciled(s.ix, s.c));
      System(s.ix, Reconciled(s.ix, s.c), true)
    case Follow(tip) =>
      FollowKeeps(bk, s, tip);
      System(s.ix, Followed(s.ix, s.c, tip), tip >= s.ix.base)
    case Skip(to) =>
      SkippedCovers(bk, s.ix, s.c, to);
      System(s.ix, s.c.(scan := to), true)
    case Advance(stop) =>
      ReadKeeps(bk, s, stop);
      System(s.ix, Advanced(bk, s.ix, s.c, stop), true)
    case BreakOff(upto) =>
      ReadKeeps(bk, s, upto);
      System(s.ix, BrokenOff(bk, s.ix, s.c, upto), true)
    case Watch(w, start) =>
      WatchKeeps(bk, s, w, start);
      var c := Watched(s.ix, s.c, w, start);
      System(s.ix, c, s.settled && c.scan > s.ix.base)
  }

  lemma FollowKeeps(bk: Book, s: System, tip: int)
    requires Inv(bk, s) && s.settled && s.c.starts == map[] && tip < s.ix.base + |s.ix.active|
    ensures Inv(bk, System(s.ix, Followed(s.ix, s.c, tip), tip >= s.ix.base))
  {
    hide Covered, BatchTrue;
    var c := Followed(s.ix, s.c, tip);
    NeverFiller(s.ix, c);
    if tip >= s.ix.base {
      HashJustBelow(s.ix, c);
    }
  }

  lemma ReadKeeps(bk: Book, s: System, stop: int)
    requires Inv(bk, s) && s.settled && s.c.scan - 1 <= stop < s.ix.base + |s.ix.active|
    ensures Inv(bk, System(s.ix, Advanced(bk, s.ix, s.c, stop), true))
    ensures Inv(bk, System(s.ix, BrokenOff(bk, s.ix, s.c, stop), true))
  {
    hide NowKept, BatchTrue, Covered, Wanted;
    AdvancedCovers(bk, s.ix, s.c, stop);
    BrokenCovers(bk, s.ix, s.c, stop);
    LogMore(bk, s.ix, s.c, stop);
    NeverFiller(s.ix, Advanced(bk, s.ix, s.c, stop));
  }

  lemma WatchKeeps(bk: Book, s: System, w: Script, start: int)
    requires Inv(bk, s) && (w in s.c.starts || Harmless(bk, s.ix, s.c, start))
    ensures var c := Watched(s.ix, s.c, w, start); Inv(bk, System(s.ix, c, s.settled && c.scan > s.ix.base))
  {
    hide Covered, BatchTrue, BranchCovered, Harmless;
    if w !in s.c.starts {
      var c := Watched(s.ix, s.c, w, start);
      WatchExact(bk, s.ix, s.c, w, start);
      NeverFiller(s.ix, c);
      if s.settled && c.scan > s.ix.base {
        HashBelowScan(bk, s.ix, s.c);
        WatchSettled(bk, s.ix, s.c, w, start);
        HashJustBelow(s.ix, c);
      }
    }
  }

  lemma NeverFiller(ix: Index, c: Cursor)
    requires ix.Valid() && c.hash in ix.nodes
    ensures c.hash != FILLER
  {
    assert InTree(ix.nodes, ix.base, ix.active[0], c.hash);
  }

  /** The state before anything is loaded. */
  const Blank := Cursor(0, FILLER, map[], 0, [], {})

  /** A chain that was just started and reconciled once. */
  ghost function Started(bk: Book, ix: Index): (s: System)
    requires Honest(bk) && Sound(ix)
    ensures Inv(bk, s)
  {
    var c := Reconciled(ix, Blank);
    HashJustBelow(ix, c);
    ForkOfActive(ix, c.scan - 1 - ix.base);
    NeverFiller(ix, c);
    System(ix, c, true)
  }

  /** A run: events that cannot happen change nothing. */
  ghost function Run(bk: Book, s: System, events: seq<Event>): (t: System)
    requires Inv(bk, s)
    ensures Inv(bk, t)
    decreases |events|
  {
    if events == [] then s
    else
      var p, e := Run(bk, s, events[..|events| - 1]), events[|events| - 1];
      if Enabled(bk, p, e) then Next(bk, p, e) else p
  }

  /** The block went by in a batch that did not look for the script, because the kept blocks
      on the chain of that time showed its contract complete. */
  ghost predicate PassedComplete(bk: Book, c: Cursor, w: Script, b: Hash) {
    exists i :: 0 <= i < |c.log| && PassedAt(bk, c, c.log[i], w, b)
  }

  ghost predicate PassedAt(bk: Book, c: Cursor, x: Batch, w: Script, b: Hash) {
    x.ix.Valid() && x.kept <= c.kept && w in x.watched && b in x.blocks && b in x.ix.active && Complete(bk, x.ix, x.kept, w)
  }

  lemma PassedMeans(bk: Book, c: Cursor, w: Script, b: Hash)
    requires LogTrue(bk, c) && PassedFor(c.log, w, b)
    ensures PassedComplete(bk, c, w, b)
  {
    hide Complete;
    var i :| 0 <= i < |c.log| && b in c.log[i].blocks && w in c.log[i].watched && w !in c.log[i].wanted;
    assert BatchTrue(bk, c.log[i], c.kept);
    assert PassedAt(bk, c, c.log[i], w, b);
  }

  /** In every run of a chain from its start, whenever the cursor is settled, every active
      block below it was, for every watched script, read in a batch that looked for the
      script, with what it has for the script kept; or it went by in one while the kept
      blocks showed the contract complete; or it is older than the window: by its own time
      or its median time, above the anchor. */
  lemma RunCovers(bk: Book, ix: Index, events: seq<Event>, w: Script, k: nat)
    requires Honest(bk) && Sound(ix)
    requires var s := Run(bk, Started(bk, ix), events); s.settled && w in s.c.starts && 1 <= k < s.c.scan - s.ix.base
    ensures
      var s := Run(bk, Started(bk, ix), events);
      && k < |s.ix.active| && s.ix.active[k] in s.ix.nodes
      && var b := s.ix.active[k];
         || (ReadFor(s.c.log, w, b) && Kept(bk, s.ix, s.c.kept, w, b))
         || PassedComplete(bk, s.c, w, b)
         || (k < s.ix.trusted - 1 && Old(s.ix, s.c.starts[w], b))
         || s.ix.nodes[b].time < s.c.starts[w]
         || MedianTime(s.ix.nodes, s.ix.base, s.ix.active[0], b) < s.c.starts[w]
  {
    hide MedianTime, Run, Started, Old, Kept, PassedComplete, ReadFor, BatchTrue;
    var s := Run(bk, Started(bk, ix), events);
    ActiveShape(s.ix);
    assert Covered(bk, s.ix, s.c, w, s.ix.active[k]);
    if PassedFor(s.c.log, w, s.ix.active[k]) {
      PassedMeans(bk, s.c, w, s.ix.active[k]);
    }
    if Old(s.ix, s.c.starts[w], s.ix.active[k]) && k >= s.ix.trusted - 1 {
      OldMeans(s.ix, s.c.starts[w], s.ix.active[k]);
    }
  }

  /** What a lookup relies on.  In every run, once the cursor is settled above both: a
      payment to a watched script, and what spends it, are in the table of known
      transactions, unless one of the two blocks is before the script's window or went by
      while its contract was complete. */
  lemma RunFinds(bk: Book, ix: Index, events: seq<Event>, w: Script, j: nat, k: nat, o: OutPoint)
    requires Honest(bk) && Sound(ix)
    requires
      var s := Run(bk, Started(bk, ix), events);
      && s.settled && w in s.c.starts && 1 <= j <= k < s.c.scan - s.ix.base && k < |s.ix.active|
      && Funds(bk, s.ix.active[j], o, w) && Spends(bk, s.ix.active[k], o)
      && !PassedComplete(bk, s.c, w, s.ix.active[j]) && !Old(s.ix, s.c.starts[w], s.ix.active[j])
      && !PassedComplete(bk, s.c, w, s.ix.active[k]) && !Old(s.ix, s.c.starts[w], s.ix.active[k])
    ensures
      var s := Run(bk, Started(bk, ix), events);
      var t := Known(bk, s.ix, s.c.kept);
      o in PaidTo(t, {w}) && exists id :: id in t && o in t[id].tx.ins
  {
    hide Run, Started, Old, PassedComplete, ReadFor, BatchTrue, Funds, Known, PaidTo;
    var s := Run(bk, Started(bk, ix), events);
    var a, b := s.ix.active[j], s.ix.active[k];
    ActiveShape(s.ix);
    ForkOfActive(s.ix, k);
    assert s.ix.Branch(b)[j] == a;
    NotPassed(bk, s, w, j);
    NotPassed(bk, s, w, k);
    PaidHas(bk, s.ix, s.c.kept, {w}, a, o, w);
    SpenderKnown(bk, s.ix, s.c.kept, b, o);
  }

  lemma NotPassed(bk: Book, s: System, w: Script, k: nat)
    requires Inv(bk, s) && s.settled && w in s.c.starts && 1 <= k < s.c.scan - s.ix.base && k < |s.ix.active|
    requires !PassedComplete(bk, s.c, w, s.ix.active[k]) && !Old(s.ix, s.c.starts[w], s.ix.active[k])
    ensures Kept(bk, s.ix, s.c.kept, w, s.ix.active[k])
  {
    hide Old, Kept, BatchTrue, PassedComplete;
    assert Covered(bk, s.ix, s.c, w, s.ix.active[k]);
    if PassedFor(s.c.log, w, s.ix.active[k]) {
      PassedMeans(bk, s.c, w, s.ix.active[k]);
    }
  }

  lemma SpenderKnown(bk: Book, ix: Index, kept: set<Hash>, b: Hash, o: OutPoint)
    requires Honest(bk) && b in kept && OnChain(ix, b) && Spends(bk, b, o)
    ensures var t := Known(bk, ix, kept); exists id :: id in t && o in t[id].tx.ins
  {
    hide Known;
    var i :| 0 <= i < |bk(b)| && o in bk(b)[i].ins;
    KnownHas(bk, ix, kept, b, i);
  }

  // ---- the class -----------------------------------------------------------------

  /** What some events, one after the other, make of a state. */
  ghost predicate Leads(bk: Book, s: System, t: System)
    requires Inv(bk, s)
  {
    exists events :: t == Run(bk, s, events)
  }

  lemma LeadsOn(bk: Book, s: System, t: System, e: Event)
    requires Inv(bk, s) && Leads(bk, s, t) && Inv(bk, t) && Enabled(bk, t, e)
    ensures Leads(bk, s, Next(bk, t, e))
  {
    hide Enabled, Next, Inv;
    var events :| t == Run(bk, s, events);
    var more := events + [e];
    assert more[..|more| - 1] == events;
    assert Next(bk, t, e) == Run(bk, s, more);
  }

  lemma LeadsSelf(bk: Book, s: System)
    requires Inv(bk, s)
    ensures Leads(bk, s, s)
  {
    assert s == Run(bk, s, []);
  }

  lemma LeadsFollow(bk: Book, s: System, tip: int)
    requires Inv(bk, s) && s.settled && s.c.starts == map[] && tip < s.ix.base + |s.ix.active|
    ensures Leads(bk, s, System(s.ix, Followed(s.ix, s.c, tip), tip >= s.ix.base))
  {
    hide Inv, Leads;
    LeadsSelf(bk, s);
    LeadsOn(bk, s, s, Event.Follow(tip));
  }

  lemma LeadsSkip(bk: Book, s: System, to: int)
    requires Inv(bk, s) && s.settled && CanSkip(s.ix, s.c, to)
    ensures var t := System(s.ix, s.c.(scan := to), true); Inv(bk, t) && Leads(bk, s, t)
  {
    hide Inv, Leads, CanSkip;
    LeadsSelf(bk, s);
    LeadsOn(bk, s, s, Event.Skip(to));
    assert Next(bk, s, Event.Skip(to)) == System(s.ix, s.c.(scan := to), true);
  }

  lemma LeadsRead(bk: Book, s0: System, s: System, e: Event)
    requires Inv(bk, s0) && Inv(bk, s) && Leads(bk, s0, s) && s.settled
    requires s.ix.base < s.c.scan
    requires e.Advance? || e.BreakOff?
    requires s.c.scan - 1 <= (if e.Advance? then e.stop else e.upto) < s.ix.base + |s.ix.active|
    ensures Leads(bk, s0, System(s.ix, if e.Advance? then Advanced(bk, s.ix, s.c, e.stop) else BrokenOff(bk, s.ix, s.c, e.upto), true))
  {
    hide Inv, Leads, Advanced, BrokenOff;
    LeadsOn(bk, s0, s, e);
  }

  class Scanner {
    const headers: Headers
    var scan: int
    var scanHash: Hash
    var birthday: int
    var watched: set<Script>
    var blocks: set<Hash>
    const book: Book
    ghost var starts: map<Script, int>
    ghost var log: seq<Batch>

    ghost predicate Ok()
      reads this, headers
    {
      headers.Valid() && starts.Keys == watched
    }

    ghost function At(): Cursor
      reads this
    {
      Cursor(scan, scanHash, starts, birthday, log, blocks)
    }

    ghost function Chain(): Index
      reads headers
    {
      headers.State()
    }

    constructor (headers: Headers, book: Book)
      requires headers.Valid()
      ensures Ok() && this.headers == headers && this.book == book && At() == Blank
    {
      this.headers, this.book, blocks := headers, book, {};
      scan, scanHash, birthday, watched := 0, FILLER, 0, {};
      starts, log := map[], [];
    }

    method Reconcile()
      requires Ok()
      modifies this`scan, this`scanHash
      ensures Ok() && At() == Reconciled(Chain(), old(At()))
    {
      scan := StepBack(headers, scan, scanHash);
      scanHash := headers.active[scan - 1 - headers.base];   // the height is above the base by now
    }

    /** `ok` is false where the code throws. */
    method Watch(w: Script, start: int) returns (ok: bool)
      requires Ok()
      modifies this`scan, this`scanHash, this`birthday, this`watched, this`starts
      ensures Ok() && watched == old(watched) + {w}
      ensures At() == Watched(Chain(), old(At()), w, start)
      ensures ok <==> w in old(watched) || scan > headers.base
    {
      hide WindowStart;
      if w in watched { watched := watched + {w}; return true; }
      watched := watched + {w};
      starts := starts[w := start];
      var height := WindowHeight(headers, start);
      scan := Min(scan, height);
      if scan - 1 < headers.base { return false; }
      scanHash := headers.active[scan - 1 - headers.base];
      if birthday == 0 || start < birthday { birthday := start; }
      return true;
    }

    method FollowTip(tip: int)
      requires Ok() && tip < headers.base + |headers.active|
      modifies this`scan, this`scanHash
      ensures Ok() && At() == Followed(Chain(), old(At()), tip)
    {
      scan := tip + 1;
      if tip >= headers.base { scanHash := headers.active[tip - headers.base]; }
    }

    /** Blocks two hours and more before the birthday are passed over, up to the first
        that is not. */
    method SkipOld(tip: int)
      requires Ok() && tip < headers.base + |headers.active|
      requires headers.base < scan <= headers.base + |headers.active|
      modifies this`scan
      ensures Ok() && CanSkip(Chain(), old(At()), scan)
      ensures birthday == 0 || scan > tip || MedianAt(Chain(), scan) >= birthday - 7200
    {
      hide MedianTime;
      if birthday != 0 { scan := FirstSince(headers, scan, tip, birthday - 7200); }
    }

    /** What a batch asks for and looks for, taken under the lock; the replies come without
        it. */
    method BeginBatch(tip: int, scanBatch: nat)
        returns (from: int, stop: int, wanted: set<Script>, requested: set<Script>, paid: set<OutPoint>)
      requires Ok()
      ensures wanted == Wanted(book, Chain(), At()) && requested == watched
      ensures paid == PaidTo(Known(book, Chain(), blocks), watched)
      ensures from == scan && stop == Min(scan + scanBatch - 1, tip)
    {
      hide Complete, PaidTo, Known;
      var active := ActiveScripts(book, headers, blocks, watched);
      wanted := set w | w in active;
      var known := KnownTransactions(book, headers, blocks);
      paid := PaidOutputs(known, watched);
      from, stop, requested := scan, Min(scan + scanBatch - 1, tip), watched;
    }

    /** The blocks of a batch up to `upto`, matched as they come in. */
    method Receive(from: int, upto: int, wanted: set<Script>, paid: set<OutPoint>)
      requires Ok() && headers.base < from && from - 1 <= upto < headers.base + |headers.active|
      modifies this`blocks
      ensures blocks == old(blocks) + Found(book, Between(Chain(), from, upto), wanted, paid)
    {
      var found := ReadBlocks(book, headers.active[from - headers.base..upto + 1 - headers.base], wanted, paid);
      blocks := blocks + found;
    }

    /** The advance at the end of a batch happens only if no watch came meanwhile. */
    method FinishBatch(from: int, stop: int, requested: set<Script>, ghost begun: Cursor)
      requires Ok() && headers.base < from && from - 1 <= stop < headers.base + |headers.active|
      modifies this`scan, this`scanHash, this`log
      ensures Ok()
      ensures At() == if old(scan) == from && old(watched) == requested
                      then old(At()).(scan := stop + 1, hash := headers.active[stop - headers.base],
                                      log := old(log) + [BatchOf(book, Chain(), begun, from, stop)])
                      else old(At())
    {
      if scan == from && watched == requested {
        log := log + [BatchOf(book, Chain(), begun, from, stop)];
        scan := stop + 1;
        scanHash := headers.active[stop - headers.base];
      }
    }

    /** A new watch that lands while a batch is in flight keeps the cursor it set; what the
        batch brings is kept all the same. */
    method WatchDuringBatch(w: Script, start: int, tip: int, scanBatch: nat) returns (ok: bool)
      requires Ok() && w !in watched && headers.base < scan <= tip + 1 <= headers.base + |headers.active|
      requires Wanted(book, Chain(), At()) != {}
      modifies this`scan, this`scanHash, this`birthday, this`watched, this`starts, this`log, this`blocks
      ensures Ok()
      ensures At() == Watched(Chain(), BrokenOff(book, Chain(), old(At()), Min(old(scan) + scanBatch - 1, tip)), w, start)
    {
      hide Complete, PaidTo, Known, Found, Wanted, Watched;
      ghost var begun := At();
      var from, stop, wanted, requested, paid := BeginBatch(tip, scanBatch);
      ok := Watch(w, start);
      Receive(from, stop, wanted, paid);
      WatchedKept(Chain(), begun, w, start, blocks);
      FinishBatch(from, stop, requested, begun);
    }

    /** One round of `ScanBlocks` with nothing landing in between is a run: nothing
        watched, everything old, every contract complete, a batch, or a batch that breaks
        off after `arriving` blocks. */
    method ScanBlocks(tip: int, scanBatch: nat, arriving: nat) returns (ok: bool)
      requires Ok() && Inv(book, System(Chain(), At(), true)) && tip < headers.base + |headers.active|
      modifies this`scan, this`scanHash, this`log, this`blocks
      ensures Ok()
      ensures Leads(book, System(Chain(), old(At()), true), System(Chain(), At(), old(watched) != {} || tip >= headers.base))
    {
      hide Inv, CanSkip, Followed, Advanced, BrokenOff, Leads, Wanted;
      ghost var s0 := System(Chain(), At(), true);
      InvCursor(book, s0);
      if watched == {} {
        assert starts == map[];
        LeadsFollow(book, s0, tip);
        FollowTip(tip);
        return true;
      }
      SkipOld(tip);
      LeadsSkip(book, s0, scan);
      if scan > tip { return true; }
      ghost var s1 := System(Chain(), At(), true);
      InvCursor(book, s1);
      ghost var e;
      ok, e := RunBatch(tip, scanBatch, arriving);
      LeadsRead(book, s0, s1, e);
    }

    /** A batch, or the jump to the tip when every contract is complete; `ok` is false where
        the code throws. */
    method RunBatch(tip: int, scanBatch: nat, arriving: nat) returns (ok: bool, ghost e: Event)
      requires Ok() && headers.base < scan <= tip < headers.base + |headers.active|
      modifies this`scan, this`scanHash, this`log, this`blocks
      ensures Ok()
      ensures var c, stop := old(At()), Min(old(scan) + scanBatch - 1, tip);
              if Wanted(book, Chain(), c) == {} then ok && e == Advance(tip) && At() == Advanced(book, Chain(), c, tip)
              else if old(scan) + arriving > stop then ok && e == Advance(stop) && At() == Advanced(book, Chain(), c, stop)
              else !ok && e == BreakOff(old(scan) + arriving - 1)
                   && At() == BrokenOff(book, Chain(), c, old(scan) + arriving - 1)
    {
      hide Complete, PaidTo, Known, Found, Wanted;
      ghost var begun := At();
      var from, stop, wanted, requested, paid := BeginBatch(tip, scanBatch);
      if wanted == {} {
        FinishBatch(from, tip, requested, begun);
        return true, Advance(tip);
      }
      var upto := Min(stop, from + arriving - 1);
      Receive(from, upto, wanted, paid);
      if upto < stop { return false, BreakOff(upto); }
      FinishBatch(from, stop, requested, begun);
      return true, Advance(stop);
    }
  }

  lemma InvCursor(bk: Book, s: System)
    requires Inv(bk, s) && s.settled
    ensures s.ix.base < s.c.scan <= s.ix.base + |s.ix.active|
  {
  }

  method WindowHeight(headers: Headers, start: int) returns (height: int)
    requires headers.Valid()
    ensures height == WindowStart(headers.State(), start)
  {
    ActiveShape(headers.State());
    height := headers.base + |headers.active| - 1;
    while height > headers.base + 1 && headers.nodes[headers.active[height - 1 - headers.base]].time >= start
      invariant headers.base <= height < headers.base + |headers.active|
      invariant WindowFrom(headers.State(), start, height) == WindowStart(headers.State(), start)
    {
      height := height - 1;
    }
  }

  /** The new height `Reconcile` computes. */
  method StepBack(headers: Headers, scan: int, scanHash: Hash) returns (s: int)
    requires headers.Valid()
    ensures headers.base < s <= headers.base + |headers.active|
    ensures s == Reconciled(headers.State(), Cursor(scan, scanHash, map[], 0, [], {})).scan
  {
    var floor, top := headers.base + 1, headers.base + |headers.active|;
    s := Max(floor, Min(scan, top));
    if scanHash != FILLER && scanHash in headers.nodes {
      ActiveForks(headers.State(), scanHash);
    }
    if s > floor && scanHash != FILLER && headers.ActiveHeight(scanHash) != s - 1 {
      var fork := headers.ForkHeight(scanHash);
      if scanHash in headers.nodes { ForkIs(headers.State(), scanHash, fork); }
      s := Max(floor, Min(s, if fork < 0 then floor else fork + 1));
    }
  }

  /** The first active height from `from` to `tip` whose median time reaches `time`. */
  method FirstSince(headers: Headers, from: int, tip: int, time: int) returns (next: int)
    requires headers.Valid() && headers.base < from <= headers.base + |headers.active|
    requires tip < headers.base + |headers.active|
    ensures from <= next <= headers.base + |headers.active|
    ensures forall k :: from <= k < next ==> MedianAt(headers.State(), k) < time
    ensures next > tip || MedianAt(headers.State(), next) >= time
  {
    hide MedianTime;
    ActiveShape(headers.State());
    next := from;
    while next <= tip
      invariant from <= next <= headers.base + |headers.active|
      invariant forall k :: from <= k < next ==> MedianAt(headers.State(), k) < time
    {
      var m := headers.Median(headers.active[next - headers.base]);
      if m >= time { break; }
      next := next + 1;
    }
  }
}
