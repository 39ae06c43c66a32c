/** Runs in which a scan loses blocks (`Watch` and `ScanBlocks`, src/btclight.cpp), each
    from a chain just started. */
module ScanLosses {
  import opened HeaderIndex
  import opened LightHeaders
  import opened KeptBlocks
  import opened ScanCursor
  import Medians

  /** The start of a chain, and headers of work one each: 2 and 3, then 4, 5 and 6 on
      another branch, each later than all before it. */
  const Genesis := Index(map[1 := Header(1, 0, 10000, 0, 1)], [1], 0, 1)
  const Plain := Setting(100000, false, 0, false, 0)

  lemma GenesisSound()
    ensures Sound(Genesis) && OneBranch(Genesis, 0)
  {
    assert InTree(Genesis.nodes, 0, 1, 1);
    assert Path(Genesis.nodes, 0, 1, 1) == [1];
  }

  ghost predicate Within(ix: Index, lo: int, hi: int) {
    forall h :: h in ix.nodes ==> lo <= ix.nodes[h].time < hi
  }

  lemma {:induction false} WindowWithin(ix: Index, h: Hash, n: nat, lo: int, hi: int)
    requires ix.Valid() && h in ix.nodes && Within(ix, lo, hi)
    ensures
      var w := Window(ix.nodes, ix.base, ix.active[0], h, n);
      (n > 0 ==> w != []) && forall i :: 0 <= i < |w| ==> lo <= w[i] < hi
    decreases n
  {
    assert InTree(ix.nodes, ix.base, ix.active[0], h);
    if n > 0 && h != ix.active[0] {
      WindowWithin(ix, ix.nodes[h].prev, n - 1, lo, hi);
    }
  }

  lemma MedianWithin(ix: Index, h: Hash, lo: int, hi: int)
    requires ix.Valid() && h in ix.nodes && Within(ix, lo, hi)
    ensures lo <= MedianTime(ix.nodes, ix.base, ix.active[0], h) < hi
  {
    WindowWithin(ix, h, SPAN, lo, hi);
    var w := Window(ix.nodes, ix.base, ix.active[0], h, SPAN);
    Medians.AtLeastAll(w, lo);
    Medians.MedianAtLeast(w, lo);
    Medians.AtLeastNone(w, hi);
    Medians.MedianAtLeast(w, hi);
  }

  lemma NothingOld(ix: Index, start: int, b: Hash)
    requires ix.Valid() && Within(ix, start, 1000000)
    ensures !Old(ix, start, b)
  {
    hide MedianTime;
    if Old(ix, start, b) {
      var h :| OldAt(ix, start, b, h);
      MedianWithin(ix, h, start, 1000000);
    }
  }

  ghost predicate Grew(ix: Index, s: Index, hash: Hash, prev: Hash, time: int)
    requires ix.Valid() && prev in ix.nodes
  {
    var n := Header(hash, prev, time, ix.nodes[prev].height + 1, ix.nodes[prev].work + 1);
    && Sound(s) && Within(s, 10000, time + 1)
    && s == Index(ix.nodes[hash := n], if n.work > ix.Tip().work then ix.Branch(prev) + [hash] else ix.active, ix.base, 1)
    && s.Branch(hash) == ix.Branch(prev) + [hash]
    && forall h :: h in ix.nodes ==> s.Branch(h) == ix.Branch(h)
  }

  /** A header later than all others, put on a branch. */
  lemma Later(ix: Index, hash: Hash, prev: Hash, time: int)
    requires Sound(ix) && ix.trusted == 1 && hash != FILLER && hash !in ix.nodes && prev in ix.nodes
    requires Within(ix, 10000, time) && time <= 100000
    ensures Grew(ix, Step(ix, Candidate(hash, prev, time, 1, true), Plain), hash, prev, time)
  {
    hide MedianTime;
    var c := Candidate(hash, prev, time, 1, true);
    MedianWithin(ix, prev, 10000, time);
    assert InTree(ix.nodes, ix.base, ix.active[0], prev);
    assert Accepts(ix, c, Plain);
    StepKeeps(ix, c, Plain);
    var s := Step(ix, c, Plain);
    forall h | h in ix.nodes ensures s.Branch(h) == ix.Branch(h) {
      StepBranch(ix, c, Plain, h);
    }
    assert InTree(s.nodes, s.base, s.active[0], hash);
  }

  /** The system with one such header more. */
  ghost function WithHeader(s: System, hash: Hash, prev: Hash, time: int): System
    requires Sound(s.ix) && hash != FILLER
  {
    System(Step(s.ix, Candidate(hash, prev, time, 1, true), Plain), s.c, false)
  }

  lemma HeaderLeads(bk: Book, s0: System, s: System, hash: Hash, prev: Hash, time: int)
    requires Inv(bk, s0) && Inv(bk, s) && Leads(bk, s0, s)
    requires s.ix.trusted == 1 && hash != FILLER && hash !in s.ix.nodes && prev in s.ix.nodes
    requires Within(s.ix, 10000, time) && time <= 100000
    ensures Sound(s.ix)
    ensures var t := WithHeader(s, hash, prev, time);
            Inv(bk, t) && Leads(bk, s0, t) && Grew(s.ix, t.ix, hash, prev, time)
  {
    hide Leads, Step, Grew;
    var e := AddHeader(Candidate(hash, prev, time, 1, true), Plain);
    assert Enabled(bk, s, e) && Next(bk, s, e) == WithHeader(s, hash, prev, time);
    LeadsOn(bk, s0, s, e);
    Later(s.ix, hash, prev, time);
  }

  // ---- one branch -------------------------------------------------------------------------------

  /** Headers 2 to `n` + 1 on the start, one on the other. */
  ghost predicate OneBranch(ix: Index, n: nat) {
    && Sound(ix) && ix.base == 0 && ix.trusted == 1 && Within(ix, 10000, 10000 + 100 * n + 1)
    && ix.active == Numbers(n + 1)
    && (forall h :: h in ix.nodes <==> 1 <= h <= n + 1)
    && ix.nodes[1].work == 1 && ix.Tip().work == n + 1
  }

  function Numbers(n: nat): (s: seq<Hash>)
    ensures |s| == n && forall i :: 0 <= i < n ==> s[i] == i + 1
  {
    seq(n, i requires 0 <= i < n => i + 1)
  }

  lemma OneMore(ix: Index, n: nat)
    requires OneBranch(ix, n) && n <= 9
    ensures OneBranch(Step(ix, Candidate(n + 2, n + 1, 10100 + 100 * n, 1, true), Plain), n + 1)
  {
    hide Step, TimesChecked, Numbers;
    ForkOfActive(ix, n);
    Later(ix, n + 2, n + 1, 10100 + 100 * n);
    var s := Step(ix, Candidate(n + 2, n + 1, 10100 + 100 * n, 1, true), Plain);
    assert ix.active[..n + 1] == ix.active;
    assert s.active == ix.active + [n + 2] == Numbers(n + 2);
  }

  lemma {:induction false} Grown(bk: Book, n: nat) returns (s: System)
    requires Honest(bk) && n <= 9
    ensures Sound(Genesis) && Inv(bk, s) && Leads(bk, Started(bk, Genesis), s)
    ensures s.c == Cursor(1, 1, map[], 0, [], {}) && OneBranch(s.ix, n)
    decreases n
  {
    hide Inv, Leads, Step, OneBranch, Started, Grew, Within;
    GenesisSound();
    var s0 := Started(bk, Genesis);
    if n == 0 {
      StartedIs(bk);
      s := s0;
      LeadsSelf(bk, s0);
    } else {
      s := Grown(bk, n - 1);
      OneMore(s.ix, n - 1);
      BranchShape(s.ix, n - 1);
      HeaderLeads(bk, s0, s, n + 1, n, 10000 + 100 * n);
      s := WithHeader(s, n + 1, n, 10000 + 100 * n);
    }
  }

  lemma StartedIs(bk: Book)
    requires Honest(bk) && Sound(Genesis)
    ensures Started(bk, Genesis) == System(Genesis, Cursor(1, 1, map[], 0, [], {}), true)
  {
    hide Sound;
  }

  lemma BranchShape(ix: Index, n: nat)
    requires OneBranch(ix, n)
    ensures Sound(ix) && ix.trusted == 1 && n + 2 !in ix.nodes && n + 1 in ix.nodes && Within(ix, 10000, 10100 + 100 * n)
  {
  }

  /** The chain just started, with those headers, and reconciled again. */
  lemma Grows(bk: Book, n: nat) returns (s: System)
    requires Honest(bk) && 1 <= n <= 9
    ensures Sound(Genesis) && Inv(bk, s) && Leads(bk, Started(bk, Genesis), s)
    ensures s.settled && s.c == Cursor(1, 1, map[], 0, [], {}) && OneBranch(s.ix, n)
  {
    hide Inv, Leads, Step, TimesChecked, Started;
    s := Grown(bk, n);
    ForkOfActive(s.ix, 0);
    LeadsOn(bk, Started(bk, Genesis), s, Event.Reconcile);
    s := Next(bk, s, Event.Reconcile);
  }

  /** A first watch on such a chain puts the cursor at the bottom. */
  lemma FirstWatch(bk: Book, s0: System, s: System, n: nat, w: Script, start: int)
    requires Inv(bk, s0) && Inv(bk, s) && Leads(bk, s0, s) && s.settled && n >= 1 && OneBranch(s.ix, n)
    requires s.c == Cursor(1, 1, map[], 0, [], {}) && start <= 10000
    ensures
      var t := System(s.ix, Cursor(1, 1, map[w := start], start, [], {}), true);
      Inv(bk, t) && Leads(bk, s0, t)
  {
    hide Leads, Inv;
    ActiveShape(s.ix) by { OneBranchSound(bk, s); }
    OneBranchSound(bk, s);
    assert WindowStart(s.ix, start) == 1;
    assert Watched(s.ix, s.c, w, start) == Cursor(1, 1, map[w := start], start, [], {});
    assert Harmless(bk, s.ix, s.c, start);
    assert Enabled(bk, s, Event.Watch(w, start));
    LeadsOn(bk, s0, s, Event.Watch(w, start));
  }

  lemma OneBranchSound(bk: Book, s: System)
    requires Inv(bk, s)
    ensures Sound(s.ix) && s.c.hash in s.ix.nodes
  {
  }

  // ---- a watch between a reorganisation and its reconcile ---------------------------------------

  /** Script 7 was looked for in blocks 2 and 3 and then a heavier branch of 4, 5 and 6 came
      in; the cursor has not been reconciled yet. */
  ghost predicate Overtaken(s: System) {
    && Sound(s.ix) && s.ix.base == 0 && Within(s.ix, 10000, 10501)
    && s.ix.active == [1, 4, 5, 6] && s.ix.nodes.Keys == {1, 2, 3, 4, 5, 6} && s.ix.nodes[5].time == 10400
    && !s.settled && s.c.scan == 3 && s.c.starts == map[7 := 1000] && s.c.birthday == 1000
    && |s.c.log| == 1 && s.c.log[0].blocks == {2, 3}
  }

  ghost predicate ScannedFor(s: System) {
    && s.c.scan == 3 && s.c.hash == 3 && s.c.starts == map[7 := 1000] && s.c.birthday == 1000
    && |s.c.log| == 1 && s.c.log[0].blocks == {2, 3}
  }

  lemma Scans(bk: Book) returns (s: System)
    requires Honest(bk)
    ensures Sound(Genesis) && Inv(bk, s) && Leads(bk, Started(bk, Genesis), s) && OneBranch(s.ix, 2) && ScannedFor(s)
  {
    hide Inv, Leads, NowKept, Wanted;
    s := Grows(bk, 2);
    FirstWatch(bk, Started(bk, Genesis), s, 2, 7, 1000);
    s := System(s.ix, Cursor(1, 1, map[7 := 1000], 1000, [], {}), true);
    LeadsOn(bk, Started(bk, Genesis), s, Event.Advance(2));
    assert Between(s.ix, 1, 2) == [2, 3];
    s := Next(bk, s, Event.Advance(2));
  }

  lemma Overtakes(bk: Book) returns (s: System)
    requires Honest(bk)
    ensures Sound(Genesis) && Inv(bk, s) && Leads(bk, Started(bk, Genesis), s) && Overtaken(s)
  {
    hide Inv, Leads, Step, TimesChecked, Started;
    var t := Scans(bk);
    s := Branches(bk, Started(bk, Genesis), t);
    HeaderLeads(bk, Started(bk, Genesis), s, 6, 5, 10500);
    s := WithHeader(s, 6, 5, 10500);
  }

  /** Headers 4 and 5, which are no heavier than 2 and 3. */
  lemma Branches(bk: Book, s0: System, s: System) returns (t: System)
    requires Inv(bk, s0) && Inv(bk, s) && Leads(bk, s0, s) && OneBranch(s.ix, 2)
    ensures Inv(bk, t) && Leads(bk, s0, t) && t.c == s.c && !t.settled
    ensures Sound(t.ix) && t.ix.base == 0 && t.ix.trusted == 1 && Within(t.ix, 10000, 10401)
    ensures t.ix.active == [1, 2, 3] && t.ix.nodes.Keys == {1, 2, 3, 4, 5} && t.ix.Branch(5) == [1, 4, 5]
    ensures t.ix.Tip().work == t.ix.nodes[5].work == 3 && t.ix.nodes[5].time == 10400
  {
    hide Inv, Leads, Step, TimesChecked;
    var u := FirstOfBranch(bk, s0, s);
    HeaderLeads(bk, s0, u, 5, 4, 10400);
    t := WithHeader(u, 5, 4, 10400);
  }

  lemma FirstOfBranch(bk: Book, s0: System, s: System) returns (t: System)
    requires Inv(bk, s0) && Inv(bk, s) && Leads(bk, s0, s) && OneBranch(s.ix, 2)
    ensures Inv(bk, t) && Leads(bk, s0, t) && t.c == s.c && !t.settled
    ensures Sound(t.ix) && t.ix.base == 0 && t.ix.trusted == 1 && Within(t.ix, 10000, 10301)
    ensures t.ix.active == [1, 2, 3] && t.ix.nodes.Keys == {1, 2, 3, 4} && t.ix.Branch(4) == [1, 4]
    ensures t.ix.Tip().work == 3 && t.ix.nodes[4].work == 2
  {
    hide Inv, Leads, Step, TimesChecked;
    HeaderLeads(bk, s0, s, 4, 1, 10300);
    ForkOfActive(s.ix, 0);
    t := WithHeader(s, 4, 1, 10300);
  }

  /** Before `Reconcile` script 8 is watched, from 10450: the hash moves onto the new branch,
      `Reconcile` sees nothing to step back for, and block 4 is never read for 7. */
  lemma WatchCanSkip(bk: Book) returns (s: System)
    requires Honest(bk)
    ensures Sound(Genesis) && Inv(bk, s) && Leads(bk, Started(bk, Genesis), s)
    ensures s.ix.Valid() && s.c.starts == map[7 := 1000]
    ensures
      var r := Reconciled(s.ix, Watched(s.ix, s.c, 8, 10450));
      r.scan == 3 && 7 in r.starts && s.ix.base == 0 && |s.ix.active| == 4 && !Covered(bk, s.ix, r, 7, s.ix.active[1])
  {
    hide Leads, Inv, Old;
    s := Overtakes(bk);
    ForkOfActive(s.ix, 2);
    assert WindowStart(s.ix, 10450) == 3;
    var d := Watched(s.ix, s.c, 8, 10450);
    assert d.scan == 3 && d.hash == 5;
    NothingOld(s.ix, 1000, 4);
  }

  // ---- a window from time zero ---------------------------------------------------------------------

  /** Script 7 is watched from time zero, which counts as no birthday, so that a watch of 8
      moves the birthday up past it and block 2 may be passed over unread. */
  lemma ZeroStartForgotten(bk: Book) returns (s: System)
    requires Honest(bk)
    ensures Sound(Genesis) && Inv(bk, s) && Leads(bk, Started(bk, Genesis), s) && s.settled
    ensures s.ix.Valid() && s.c.starts == map[7 := 0]
    ensures
      var d := Watched(s.ix, s.c, 8, 90000);
      && s.ix.base == 0 && |s.ix.active| == 2
      && d.scan == 1 && d.birthday == 90000 && CanSkip(s.ix, d, 2) && !Covered(bk, s.ix, d, 7, s.ix.active[1])
  {
    hide Leads, Inv, Old, MedianTime;
    var t := Grows(bk, 1);
    FirstWatch(bk, Started(bk, Genesis), t, 1, 7, 0);
    s := System(t.ix, Cursor(1, 1, map[7 := 0], 0, [], {}), true);
    NothingOld(s.ix, 0, 2);
    MedianWithin(s.ix, 2, 10000, 10101);
    assert WindowStart(s.ix, 90000) == 1;
  }

  // ---- a second payment ------------------------------------------------------------------------------

  /** Block 2 pays script 7, block 3 spends that, block 9 pays it again. */
  function Repaid(): Book {
    (b: Hash) => if b == 2 then [Tx(20, [], [7])] else if b == 3 then [Tx(30, [OutPoint(20, 0)], [])]
                 else if b == 9 then [Tx(90, [], [7])] else []
  }

  lemma RepaidBlocks()
    ensures Honest(Repaid())
    ensures forall b, o, w :: Funds(Repaid(), b, o, w) <==>
              w == 7 && ((b == 2 && o == OutPoint(20, 0)) || (b == 9 && o == OutPoint(90, 0)))
    ensures forall b, o :: Spends(Repaid(), b, o) <==> b == 3 && o == OutPoint(20, 0)
  {
    hide Honest;
    var bk := Repaid();
    RepaidHonest();
    assert FundsIn(bk(2)[0], OutPoint(20, 0), 7) && FundsIn(bk(9)[0], OutPoint(90, 0), 7);
    assert OutPoint(20, 0) in bk(3)[0].ins;
  }

  lemma RepaidHonest()
    ensures Honest(Repaid())
  {
  }

  /** The blocks up to 8 were read for script 7, with the payment and its spend kept. */
  ghost predicate ReadOnce(s: System) {
    && s.settled && OneBranch(s.ix, 7) && s.c.scan == 8 && s.c.hash == 8 && s.c.starts == map[7 := 1000]
    && s.c.birthday == 1000 && {2, 3} <= s.c.kept && 9 !in s.c.kept
  }

  lemma ReadsOnce() returns (s: System)
    ensures Honest(Repaid()) && Sound(Genesis) && Inv(Repaid(), s)
    ensures Leads(Repaid(), Started(Repaid(), Genesis), s) && ReadOnce(s)
  {
    hide Inv, Leads, NowKept, Repaid;
    RepaidBlocks();
    var bk := Repaid();
    s := Grows(bk, 7);
    FirstWatch(bk, Started(bk, Genesis), s, 7, 7, 1000);
    s := System(s.ix, Cursor(1, 1, map[7 := 1000], 1000, [], {}), true);
    KeepsTwo(s.ix, s.c);
    LeadsOn(bk, Started(bk, Genesis), s, Event.Advance(7));
    s := Next(bk, s, Event.Advance(7));
  }

  lemma KeepsTwo(ix: Index, c: Cursor)
    requires OneBranch(ix, 7) && c.scan == 1 && c.starts == map[7 := 1000] && c.kept == {}
    ensures {2, 3} <= NowKept(Repaid(), ix, c, 7) && 9 !in NowKept(Repaid(), ix, c, 7)
  {
    hide Found, PaidTo, Complete, Funds, Spends, Repaid;
    RepaidBlocks();
    var bk, blocks := Repaid(), Between(ix, 1, 7);
    assert blocks == [2, 3, 4, 5, 6, 7, 8];
    NothingComplete(bk, ix, 7);
    var paid := PaidTo(Known(bk, ix, {}), {7});
    assert c.starts.Keys == {7} && Wanted(bk, ix, c) == {7};
    FoundAre(bk, blocks, {7}, paid);
    FoundPays(bk, blocks, {7}, paid, 0, OutPoint(20, 0), 7);
    FoundSpends(bk, blocks, {7}, paid, 1, OutPoint(20, 0));
  }

  lemma NothingComplete(bk: Book, ix: Index, w: Script)
    requires ix.Valid()
    ensures !Complete(bk, ix, {}, w)
  {
    assert Known(bk, ix, {}) == map[];
  }

  /** A payment to a contract whose first one is spent and buried is not looked for, so a
      lookup misses it: the block is not before the window, and below the cursor. */
  lemma SecondPaymentMissed() returns (s: System)
    ensures Honest(Repaid()) && Sound(Genesis) && Inv(Repaid(), s)
    ensures Leads(Repaid(), Started(Repaid(), Genesis), s) && s.settled && s.ix.Valid()
    ensures s.c.starts == map[7 := 1000] && s.ix.base == 0 && s.c.scan == 9 == |s.ix.active| && s.ix.active[8] == 9
    ensures Funds(Repaid(), 9, OutPoint(90, 0), 7) && !Old(s.ix, 1000, 9)
    ensures OutPoint(90, 0) !in PaidTo(Known(Repaid(), s.ix, s.c.kept), {7})
  {
    hide Inv, Leads, Step, TimesChecked, Started, Complete, Funds, Spends, Repaid, Old;
    s := ReadsOnce();
    var bk, s0 := Repaid(), Started(Repaid(), Genesis);
    RepaidBlocks();
    ForkOfActive(s.ix, 7);
    HeaderLeads(bk, s0, s, 9, 8, 10800);
    s := WithHeader(s, 9, 8, 10800);
    ForkOfActive(s.ix, 7);
    LeadsOn(bk, s0, s, Event.Reconcile);
    s := Next(bk, s, Event.Reconcile);
    CompleteThen(bk, s.ix, s.c.kept);
    assert Wanted(bk, s.ix, s.c) == {};
    LeadsOn(bk, s0, s, Event.Advance(8));
    s := Next(bk, s, Event.Advance(8));
    NothingOld(s.ix, 1000, 9);
    NotKnown(bk, s.ix, s.c.kept);
  }

  lemma CompleteThen(bk: Book, ix: Index, kept: set<Hash>)
    requires bk == Repaid() && OneBranch(ix, 8) && {2, 3} <= kept && 9 !in kept
    ensures Complete(bk, ix, kept, 7)
  {
    hide Complete, Funds, Spends, Repaid;
    RepaidBlocks();
    ActiveShape(ix);
    assert ix.active[1] == 2 && ix.active[2] == 3;
    assert OnChain(ix, 2) && Funds(bk, 2, OutPoint(20, 0), 7);
    assert Buries(bk, ix, kept, OutPoint(20, 0), 3);
    CompleteIf(bk, ix, kept, 7);
  }

  lemma NotKnown(bk: Book, ix: Index, kept: set<Hash>)
    requires bk == Repaid() && 9 !in kept
    ensures OutPoint(90, 0) !in PaidTo(Known(bk, ix, kept), {7})
  {
    hide Known;
    if OutPoint(90, 0) in PaidTo(Known(bk, ix, kept), {7}) {
      var b, i := KnownFrom(bk, ix, kept, 90);
    }
  }
}
