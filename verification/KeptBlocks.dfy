/** The blocks a chain without filters keeps, and what they tell (`Transactions`,
    `ActiveScripts` and the reading in `ScanBlocks`, src/btclight.cpp).  A block checked
    against its header's merkle root has the transactions the header commits to, which is
    its entry in a `Book`. */
module KeptBlocks {
  import opened HeaderIndex
  import opened LightHeaders

  type Script = nat
  type TxId = nat
  datatype OutPoint = OutPoint(tx: TxId, n: nat)
  datatype Tx = Tx(id: TxId, ins: seq<OutPoint>, outs: seq<Script>)
  type Book = Hash -> seq<Tx>

  /** A transaction's id names it, as a hash does. */
  ghost predicate Honest(bk: Book) {
    forall b, c, i, j {:trigger bk(b)[i], bk(c)[j]} ::
      0 <= i < |bk(b)| && 0 <= j < |bk(c)| && bk(b)[i].id == bk(c)[j].id ==> bk(b)[i] == bk(c)[j]
  }

  /** The block has a transaction whose output `o` pays `w`. */
  ghost predicate Funds(bk: Book, b: Hash, o: OutPoint, w: Script) {
    exists i :: 0 <= i < |bk(b)| && FundsIn(bk(b)[i], o, w)
  }

  predicate FundsIn(tx: Tx, o: OutPoint, w: Script) { tx.id == o.tx && o.n < |tx.outs| && tx.outs[o.n] == w }

  ghost predicate Spends(bk: Book, b: Hash, o: OutPoint) {
    exists i :: 0 <= i < |bk(b)| && o in bk(b)[i].ins
  }

  // ---- maps and sets are walked in ascending order ----------------------------------------

  predicate Least(s: set<nat>, m: nat) { forall x :: x in s ==> m <= x }

  lemma LeastOf(s: set<nat>)
    requires s != {}
    ensures exists m :: m in s && Least(s, m)
  {
    var x :| x in s;
    if s != {x} {
      LeastOf(s - {x});
      var m :| m in s - {x} && Least(s - {x}, m);
      var l := if x < m then x else m;
      assert forall y :: y in s ==> y == x || y in s - {x};
      assert l in s && Least(s, l);
    } else {
      assert Least(s, x);
    }
  }

  lemma OneLeast(s: set<nat>, a: nat, b: nat)
    requires a in s && Least(s, a) && b in s && Least(s, b)
    ensures a == b
  {
  }

  function Ascending(s: set<nat>): seq<nat> {
    if s == {} then []
    else
      hide Least;
      LeastOf(s);
      assert forall a, b :: a in s && Least(s, a) && b in s && Least(s, b) ==> a == b by {
        forall a, b | a in s && Least(s, a) && b in s && Least(s, b) ensures a == b { OneLeast(s, a, b); }
      }
      var m :| m in s && Least(s, m);
      [m] + Ascending(s - {m})
  }

  lemma {:induction false} AscendingIs(s: set<nat>)
    ensures forall x :: x in Ascending(s) <==> x in s
    ensures forall i, j :: 0 <= i < j < |Ascending(s)| ==> Ascending(s)[i] < Ascending(s)[j]
    decreases |s|
  {
    if s != {} {
      hide Least;
      LeastOf(s);
      var r := Ascending(s);
      var m: nat :| m in s && Least(s, m) && r == [m] + Ascending(s - {m});
      AscendingIs(s - {m});
      Prepended(s, m, Ascending(s - {m}));
    }
  }

  lemma Prepended(s: set<nat>, m: nat, t: seq<nat>)
    requires m in s && Least(s, m) && forall x :: x in t <==> x in s - {m}
    requires forall i, j :: 0 <= i < j < |t| ==> t[i] < t[j]
    ensures forall x :: x in [m] + t <==> x in s
    ensures forall i, j :: 0 <= i < j < |[m] + t| ==> ([m] + t)[i] < ([m] + t)[j]
  {
    forall j | 0 <= j < |t| ensures m < t[j] {
      assert t[j] in t;
    }
  }

  // ---- the table of known transactions ------------------------------------------------------

  datatype Located = Located(tx: Tx, height: int)
  type Table = map<TxId, Located>

  function WithBlock(t: Table, txs: seq<Tx>, height: int): Table {
    if txs == [] then t
    else WithBlock(t, txs[..|txs| - 1], height)[txs[|txs| - 1].id := Located(txs[|txs| - 1], height)]
  }

  predicate OnChain(ix: Index, b: Hash) { b in ix.active && b in ix.nodes }

  /** The transactions of the kept blocks that are on the active chain. */
  function Transactions(bk: Book, ix: Index, order: seq<Hash>): Table {
    if order == [] then map[]
    else
      var t, b := Transactions(bk, ix, order[..|order| - 1]), order[|order| - 1];
      if OnChain(ix, b) then WithBlock(t, bk(b), ix.nodes[b].height) else t
  }

  function WithInputs(m: map<OutPoint, int>, ins: seq<OutPoint>, height: int): map<OutPoint, int> {
    if ins == [] then m else WithInputs(m, ins[..|ins| - 1], height)[ins[|ins| - 1] := height]
  }

  /** Where each output was spent; of several spends the last one counts. */
  function SpendHeights(t: Table, ids: seq<TxId>): map<OutPoint, int>
    requires forall id :: id in ids ==> id in t
  {
    if ids == [] then map[]
    else
      var l := t[ids[|ids| - 1]];
      WithInputs(SpendHeights(t, ids[..|ids| - 1]), l.tx.ins, l.height)
  }

  /** The outputs in the table that pay one of the scripts. */
  ghost function PaidTo(t: Table, scripts: set<Script>): set<OutPoint> {
    set id, n | id in t && 0 <= n < |t[id].tx.outs| && t[id].tx.outs[n] in scripts :: OutPoint(id, n)
  }

  ghost predicate CompleteIn(t: Table, spends: map<OutPoint, int>, tip: int, w: Script) {
    && PaidTo(t, {w}) != {}
    && forall o :: o in PaidTo(t, {w}) ==> o in spends && tip - spends[o] + 1 >= 6
  }

  ghost function Known(bk: Book, ix: Index, kept: set<Hash>): Table { Transactions(bk, ix, Ascending(kept)) }

  /** A contract nothing more is expected of: paid, and each payment that is known spent
      with six confirmations. */
  ghost predicate Complete(bk: Book, ix: Index, kept: set<Hash>, w: Script)
    requires ix.Valid()
  {
    var t := Known(bk, ix, kept);
    AscendingIs(t.Keys);
    CompleteIn(t, SpendHeights(t, Ascending(t.Keys)), ix.Tip().height, w)
  }

  /** Each entry is a transaction of a kept block on the chain, at that block's height. */
  ghost predicate From(bk: Book, ix: Index, order: seq<Hash>, l: Located) {
    exists k, i :: 0 <= k < |order| && OnChain(ix, order[k]) && 0 <= i < |bk(order[k])|
                   && bk(order[k])[i] == l.tx && ix.nodes[order[k]].height == l.height
  }

  lemma {:induction false} WithBlockHas(t: Table, txs: seq<Tx>, height: int)
    ensures forall id :: id in WithBlock(t, txs, height) <==> id in t || exists i :: 0 <= i < |txs| && txs[i].id == id
    ensures forall id :: id in WithBlock(t, txs, height) ==>
              || (exists i :: 0 <= i < |txs| && txs[i].id == id && WithBlock(t, txs, height)[id] == Located(txs[i], height))
              || (id in t && WithBlock(t, txs, height)[id] == t[id])
    decreases |txs|
  {
    if txs != [] {
      var k := |txs| - 1;
      WithBlockHas(t, txs[..k], height);
      assert txs == txs[..k] + [txs[k]];
      var m := WithBlock(t, txs[..k], height);
      forall id | id in m && id != txs[k].id
        ensures (exists i :: 0 <= i < |txs| && txs[i].id == id && m[id] == Located(txs[i], height)) || (id in t && m[id] == t[id])
      {
        if i :| 0 <= i < k && txs[..k][i].id == id && m[id] == Located(txs[..k][i], height) {
          assert txs[i].id == id;
        }
      }
      forall id | id in m && id != txs[k].id
        ensures id in t || exists i :: 0 <= i < |txs| && txs[i].id == id
      {
        if i :| 0 <= i < k && txs[..k][i].id == id {
          assert txs[i].id == id;
        }
      }
    }
  }

  lemma {:induction false} TableFrom(bk: Book, ix: Index, order: seq<Hash>, id: TxId)
    requires id in Transactions(bk, ix, order)
    ensures Transactions(bk, ix, order)[id].tx.id == id && From(bk, ix, order, Transactions(bk, ix, order)[id])
    decreases |order|
  {
    var k := |order| - 1;
    var t, b := Transactions(bk, ix, order[..k]), order[k];
    var l := Transactions(bk, ix, order)[id];
    if OnChain(ix, b) {
      WithBlockHas(t, bk(b), ix.nodes[b].height);
    }
    if i :| OnChain(ix, b) && 0 <= i < |bk(b)| && bk(b)[i].id == id && l == Located(bk(b)[i], ix.nodes[b].height) {
      assert From(bk, ix, order, l);
    } else {
      TableFrom(bk, ix, order[..k], id);
      var j, i :| 0 <= j < k && OnChain(ix, order[..k][j]) && 0 <= i < |bk(order[..k][j])|
                  && bk(order[..k][j])[i] == l.tx && ix.nodes[order[..k][j]].height == l.height;
      assert order[j] == order[..k][j];
    }
  }

  /** Nothing of a kept block on the chain is missing. */
  lemma {:induction false} TableHas(bk: Book, ix: Index, order: seq<Hash>, k: nat, i: nat)
    requires Honest(bk) && k < |order| && OnChain(ix, order[k]) && i < |bk(order[k])|
    ensures bk(order[k])[i].id in Transactions(bk, ix, order)
    ensures Transactions(bk, ix, order)[bk(order[k])[i].id].tx == bk(order[k])[i]
    decreases |order|
  {
    var n := |order| - 1;
    var t, b := Transactions(bk, ix, order[..n]), order[n];
    var id := bk(order[k])[i].id;
    if OnChain(ix, b) {
      WithBlockHas(t, bk(b), ix.nodes[b].height);
    }
    if k < n {
      TableHas(bk, ix, order[..n], k, i);
    }
    TableFrom(bk, ix, order, id);
  }

  /** A kept block on the chain, with its transactions in the table. */
  lemma KnownHas(bk: Book, ix: Index, kept: set<Hash>, b: Hash, i: nat)
    requires Honest(bk) && b in kept && OnChain(ix, b) && i < |bk(b)|
    ensures bk(b)[i].id in Known(bk, ix, kept) && Known(bk, ix, kept)[bk(b)[i].id].tx == bk(b)[i]
  {
    var order := Ascending(kept);
    AscendingIs(kept);
    assert b in order;
    var k :| 0 <= k < |order| && order[k] == b;
    TableHas(bk, ix, order, k, i);
  }

  lemma KnownFrom(bk: Book, ix: Index, kept: set<Hash>, id: TxId) returns (b: Hash, i: nat)
    requires id in Known(bk, ix, kept)
    ensures b in kept && OnChain(ix, b) && i < |bk(b)|
    ensures bk(b)[i].id == id && Known(bk, ix, kept)[id] == Located(bk(b)[i], ix.nodes[b].height)
  {
    var order, l := Ascending(kept), Known(bk, ix, kept)[id];
    TableFrom(bk, ix, order, id);
    AscendingIs(kept);
    var k, j :| 0 <= k < |order| && OnChain(ix, order[k]) && 0 <= j < |bk(order[k])|
                && bk(order[k])[j] == l.tx && ix.nodes[order[k]].height == l.height;
    assert order[k] in order;
    b, i := order[k], j;
  }

  lemma {:induction false} InputsFrom(m: map<OutPoint, int>, ins: seq<OutPoint>, height: int, o: OutPoint)
    requires o in WithInputs(m, ins, height)
    ensures (o in ins && WithInputs(m, ins, height)[o] == height) || (o in m && WithInputs(m, ins, height)[o] == m[o])
    decreases |ins|
  {
    if ins != [] && o != ins[|ins| - 1] {
      InputsFrom(m, ins[..|ins| - 1], height, o);
    }
  }

  lemma {:induction false} SpendFrom(t: Table, ids: seq<TxId>, o: OutPoint) returns (id: TxId)
    requires forall x :: x in ids ==> x in t
    requires o in SpendHeights(t, ids)
    ensures id in t && o in t[id].tx.ins && SpendHeights(t, ids)[o] == t[id].height
    decreases |ids|
  {
    var k := |ids| - 1;
    id := ids[k];
    InputsFrom(SpendHeights(t, ids[..k]), t[id].tx.ins, t[id].height, o);
    if !(o in t[id].tx.ins && SpendHeights(t, ids)[o] == t[id].height) {
      id := SpendFrom(t, ids[..k], o);
    }
  }

  /** A block on the chain, kept, that spends `o` with six confirmations. */
  ghost predicate Buries(bk: Book, ix: Index, kept: set<Hash>, o: OutPoint, b: Hash)
    requires ix.Valid()
  {
    b in kept && OnChain(ix, b) && Spends(bk, b, o) && ix.Tip().height - ix.nodes[b].height + 1 >= 6
  }

  /** What makes a contract complete: a kept block on the active chain pays it, and every
      payment to it in such a block is spent in such a block, with six confirmations. */
  lemma CompleteMeans(bk: Book, ix: Index, kept: set<Hash>, w: Script)
    requires Honest(bk) && ix.Valid() && Complete(bk, ix, kept, w)
    ensures exists b, o :: b in kept && OnChain(ix, b) && Funds(bk, b, o, w)
    ensures forall b, o :: b in kept && OnChain(ix, b) && Funds(bk, b, o, w) ==>
              exists d :: Buries(bk, ix, kept, o, d)
  {
    var t := Known(bk, ix, kept);
    AscendingIs(t.Keys);
    var spends := SpendHeights(t, Ascending(t.Keys));
    var o :| o in PaidTo(t, {w});
    var b, i := KnownFrom(bk, ix, kept, o.tx);
    assert FundsIn(bk(b)[i], o, w);
    assert Funds(bk, b, o, w);
    forall b, o | b in kept && OnChain(ix, b) && Funds(bk, b, o, w)
      ensures exists d :: Buries(bk, ix, kept, o, d)
    {
      var i :| 0 <= i < |bk(b)| && FundsIn(bk(b)[i], o, w);
      KnownHas(bk, ix, kept, b, i);
      assert o in PaidTo(t, {w});
      var id := SpendFrom(t, Ascending(t.Keys), o);
      var d, j := KnownFrom(bk, ix, kept, id);
      assert o in bk(d)[j].ins;
      assert Buries(bk, ix, kept, o, d);
    }
  }

  lemma {:induction false} InputsHas(m: map<OutPoint, int>, ins: seq<OutPoint>, height: int, o: OutPoint)
    requires o in m || o in ins
    ensures o in WithInputs(m, ins, height)
    decreases |ins|
  {
    if ins != [] && o != ins[|ins| - 1] {
      assert ins == ins[..|ins| - 1] + [ins[|ins| - 1]];
      InputsHas(m, ins[..|ins| - 1], height, o);
    }
  }

  lemma {:induction false} SpendHas(t: Table, ids: seq<TxId>, id: TxId, o: OutPoint)
    requires (forall x :: x in ids ==> x in t) && id in ids && o in t[id].tx.ins
    ensures o in SpendHeights(t, ids)
    decreases |ids|
  {
    var k := |ids| - 1;
    if id in ids[..k] {
      SpendHas(t, ids[..k], id, o);
    } else {
      assert ids == ids[..k] + [ids[k]];
    }
    InputsHas(SpendHeights(t, ids[..k]), t[ids[k]].tx.ins, t[ids[k]].height, o);
  }

  /** The other way round: paid, every known payment spent, and no known spend of one with
      fewer than six confirmations.  The two differ only where an output is spent twice. */
  lemma CompleteIf(bk: Book, ix: Index, kept: set<Hash>, w: Script)
    requires Honest(bk) && ix.Valid()
    requires exists b, o :: b in kept && OnChain(ix, b) && Funds(bk, b, o, w)
    requires forall b, o :: b in kept && OnChain(ix, b) && Funds(bk, b, o, w) ==>
               && (exists d :: Buries(bk, ix, kept, o, d))
               && (forall d :: d in kept && OnChain(ix, d) && Spends(bk, d, o) ==> Buries(bk, ix, kept, o, d))
    ensures Complete(bk, ix, kept, w)
  {
    var t := Known(bk, ix, kept);
    AscendingIs(t.Keys);
    var ids := Ascending(t.Keys);
    var b, o :| b in kept && OnChain(ix, b) && Funds(bk, b, o, w);
    PaidHas(bk, ix, kept, {w}, b, o, w);
    forall o | o in PaidTo(t, {w})
      ensures o in SpendHeights(t, ids) && ix.Tip().height - SpendHeights(t, ids)[o] + 1 >= 6
    {
      var b, i := KnownFrom(bk, ix, kept, o.tx);
      assert FundsIn(bk(b)[i], o, w);
      assert Funds(bk, b, o, w);
      var d :| Buries(bk, ix, kept, o, d);
      var j :| 0 <= j < |bk(d)| && o in bk(d)[j].ins;
      KnownHas(bk, ix, kept, d, j);
      SpendHas(t, ids, bk(d)[j].id, o);
      var id := SpendFrom(t, ids, o);
      var e, k := KnownFrom(bk, ix, kept, id);
      assert o in bk(e)[k].ins;
      assert Buries(bk, ix, kept, o, e);
    }
  }

  /** Outputs of kept blocks on the chain that pay a script are in the table. */
  lemma PaidHas(bk: Book, ix: Index, kept: set<Hash>, scripts: set<Script>, b: Hash, o: OutPoint, w: Script)
    requires Honest(bk) && b in kept && OnChain(ix, b) && Funds(bk, b, o, w) && w in scripts
    ensures o in PaidTo(Known(bk, ix, kept), scripts)
  {
    var i :| 0 <= i < |bk(b)| && FundsIn(bk(b)[i], o, w);
    KnownHas(bk, ix, kept, b, i);
  }

  // ---- reading a batch ------------------------------------------------------------------------

  /** Outputs of the transactions that pay a wanted script. */
  ghost function PaidBy(txs: seq<Tx>, wanted: set<Script>): set<OutPoint> {
    set i, n | 0 <= i < |txs| && 0 <= n < |txs[i].outs| && txs[i].outs[n] in wanted :: OutPoint(txs[i].id, n)
  }

  ghost predicate TxMatches(tx: Tx, wanted: set<Script>, paid: set<OutPoint>) {
    (exists k :: 0 <= k < |tx.ins| && tx.ins[k] in paid) || (exists n :: 0 <= n < |tx.outs| && tx.outs[n] in wanted)
  }

  ghost predicate Matches(txs: seq<Tx>, wanted: set<Script>, paid: set<OutPoint>) {
    exists i :: 0 <= i < |txs| && TxMatches(txs[i], wanted, paid)
  }

  ghost function PaidUpTo(bk: Book, blocks: seq<Hash>, wanted: set<Script>, paid: set<OutPoint>): set<OutPoint> {
    if blocks == [] then paid
    else PaidUpTo(bk, blocks[..|blocks| - 1], wanted, paid) + PaidBy(bk(blocks[|blocks| - 1]), wanted)
  }

  /** The blocks of a batch that are kept: those that pay a wanted script, and those that
      spend an output known by then. */
  ghost function Found(bk: Book, blocks: seq<Hash>, wanted: set<Script>, paid: set<OutPoint>): set<Hash> {
    if blocks == [] then {}
    else
      var k := |blocks| - 1;
      Found(bk, blocks[..k], wanted, paid) +
      if Matches(bk(blocks[k]), wanted, PaidUpTo(bk, blocks[..k], wanted, paid)) then {blocks[k]} else {}
  }

  lemma {:induction false} FoundAre(bk: Book, blocks: seq<Hash>, wanted: set<Script>, paid: set<OutPoint>)
    ensures forall b :: b in Found(bk, blocks, wanted, paid) ==> b in blocks
    decreases |blocks|
  {
    hide Matches;
    if blocks != [] {
      FoundAre(bk, blocks[..|blocks| - 1], wanted, paid);
    }
  }

  lemma {:induction false} FoundAt(bk: Book, blocks: seq<Hash>, wanted: set<Script>, paid: set<OutPoint>, k: nat)
    requires k < |blocks| && Matches(bk(blocks[k]), wanted, PaidUpTo(bk, blocks[..k], wanted, paid))
    ensures blocks[k] in Found(bk, blocks, wanted, paid)
    decreases |blocks|
  {
    hide Matches;
    var n := |blocks| - 1;
    if k < n {
      assert blocks[..n][..k] == blocks[..k];
      FoundAt(bk, blocks[..n], wanted, paid, k);
    }
  }

  lemma {:induction false} PaidBefore(bk: Book, blocks: seq<Hash>, wanted: set<Script>, paid: set<OutPoint>, o: OutPoint)
    requires o in paid || exists j :: 0 <= j < |blocks| && o in PaidBy(bk(blocks[j]), wanted)
    ensures o in PaidUpTo(bk, blocks, wanted, paid)
    decreases |blocks|
  {
    hide PaidBy;
    if blocks != [] && o !in PaidBy(bk(blocks[|blocks| - 1]), wanted) {
      var n := |blocks| - 1;
      if o !in paid {
        var j :| 0 <= j < |blocks| && o in PaidBy(bk(blocks[j]), wanted);
        assert blocks[..n][j] == blocks[j];
      }
      PaidBefore(bk, blocks[..n], wanted, paid, o);
    }
  }

  /** Every block of a batch that pays a wanted script is kept. */
  lemma FoundPays(bk: Book, blocks: seq<Hash>, wanted: set<Script>, paid: set<OutPoint>, k: nat, o: OutPoint, w: Script)
    requires k < |blocks| && w in wanted && Funds(bk, blocks[k], o, w)
    ensures blocks[k] in Found(bk, blocks, wanted, paid) && o in PaidBy(bk(blocks[k]), wanted)
  {
    var i :| 0 <= i < |bk(blocks[k])| && FundsIn(bk(blocks[k])[i], o, w);
    assert TxMatches(bk(blocks[k])[i], wanted, PaidUpTo(bk, blocks[..k], wanted, paid));
    FoundAt(bk, blocks, wanted, paid, k);
  }

  /** So is every block that spends an output known when the batch began, or one that an
      earlier block of the batch pays to a wanted script. */
  lemma FoundSpends(bk: Book, blocks: seq<Hash>, wanted: set<Script>, paid: set<OutPoint>, k: nat, o: OutPoint)
    requires k < |blocks| && Spends(bk, blocks[k], o)
    requires o in paid || exists j :: 0 <= j < k && o in PaidBy(bk(blocks[j]), wanted)
    ensures blocks[k] in Found(bk, blocks, wanted, paid)
  {
    hide PaidBy;
    if j :| 0 <= j < k && o in PaidBy(bk(blocks[j]), wanted) {
      assert blocks[..k][j] == blocks[j];
    }
    PaidBefore(bk, blocks[..k], wanted, paid, o);
    var i :| 0 <= i < |bk(blocks[k])| && o in bk(blocks[k])[i].ins;
    assert TxMatches(bk(blocks[k])[i], wanted, PaidUpTo(bk, blocks[..k], wanted, paid));
    FoundAt(bk, blocks, wanted, paid, k);
  }

  // ---- the loops ------------------------------------------------------------------------------

  method AddBlock(t: Table, txs: seq<Tx>, height: int) returns (r: Table)
    ensures r == WithBlock(t, txs, height)
  {
    r := t;
    for i := 0 to |txs|
      invariant r == WithBlock(t, txs[..i], height)
    {
      assert txs[..i + 1][..i] == txs[..i];
      r := r[txs[i].id := Located(txs[i], height)];
    }
    assert txs[..|txs|] == txs;
  }

  method KnownTransactions(bk: Book, headers: Headers, blocks: set<Hash>) returns (t: Table)
    requires headers.Valid()
    ensures t == Known(bk, headers.State(), blocks)
  {
    var order := Ascending(blocks);
    t := map[];
    for k := 0 to |order|
      invariant t == Transactions(bk, headers.State(), order[..k])
    {
      assert order[..k + 1][..k] == order[..k];
      var height := headers.ActiveHeight(order[k]);
      if height >= 0 { t := AddBlock(t, bk(order[k]), height); }
    }
    assert order[..|order|] == order;
  }

  method AddInputs(m: map<OutPoint, int>, ins: seq<OutPoint>, height: int) returns (r: map<OutPoint, int>)
    ensures r == WithInputs(m, ins, height)
  {
    r := m;
    for i := 0 to |ins|
      invariant r == WithInputs(m, ins[..i], height)
    {
      assert ins[..i + 1][..i] == ins[..i];
      r := r[ins[i] := height];
    }
    assert ins[..|ins|] == ins;
  }

  method KnownSpends(t: Table, ids: seq<TxId>) returns (m: map<OutPoint, int>)
    requires forall id :: id in ids ==> id in t
    ensures m == SpendHeights(t, ids)
  {
    m := map[];
    for k := 0 to |ids|
      invariant m == SpendHeights(t, ids[..k])
    {
      assert ids[..k + 1][..k] == ids[..k];
      m := AddInputs(m, t[ids[k]].tx.ins, t[ids[k]].height);
    }
    assert ids[..|ids|] == ids;
  }

  predicate Deep(spends: map<OutPoint, int>, tip: int, o: OutPoint) { o in spends && tip - spends[o] + 1 >= 6 }

  /** Of the first `n` outputs of a transaction, those that pay one of the scripts. */
  ghost function OutputsTo(id: TxId, tx: Tx, n: nat, scripts: set<Script>): set<OutPoint>
    requires n <= |tx.outs|
  {
    set i | 0 <= i < n && tx.outs[i] in scripts :: OutPoint(id, i)
  }

  lemma OneOutput(id: TxId, tx: Tx, n: nat, scripts: set<Script>)
    requires n < |tx.outs|
    ensures OutputsTo(id, tx, n + 1, scripts) ==
            OutputsTo(id, tx, n, scripts) + if tx.outs[n] in scripts then {OutPoint(id, n)} else {}
  {
  }

  ghost function OutputsOf(t: Table, ids: seq<TxId>, scripts: set<Script>): set<OutPoint>
    requires forall id :: id in ids ==> id in t
  {
    if ids == [] then {}
    else
      var k := |ids| - 1;
      OutputsOf(t, ids[..k], scripts) + OutputsTo(ids[k], t[ids[k]].tx, |t[ids[k]].tx.outs|, scripts)
  }

  lemma {:induction false} OutputsAll(t: Table, ids: seq<TxId>, scripts: set<Script>)
    requires forall id :: id in ids ==> id in t
    ensures OutputsOf(t, ids, scripts) ==
            set id, n | id in ids && 0 <= n < |t[id].tx.outs| && t[id].tx.outs[n] in scripts :: OutPoint(id, n)
    decreases |ids|
  {
    if ids != [] {
      var k := |ids| - 1;
      assert ids == ids[..k] + [ids[k]];
      OutputsAll(t, ids[..k], scripts);
    }
  }

  lemma OutputsPaid(t: Table, ids: seq<TxId>, scripts: set<Script>)
    requires forall id :: id in ids <==> id in t
    ensures OutputsOf(t, ids, scripts) == PaidTo(t, scripts)
  {
    OutputsAll(t, ids, scripts);
  }

  /** Both flags of a script, over all that is known. */
  method LookAt(t: Table, ids: seq<TxId>, spends: map<OutPoint, int>, tip: int, w: Script) returns (funded: bool, complete: bool)
    requires forall id :: id in ids ==> id in t
    ensures funded <==> OutputsOf(t, ids, {w}) != {}
    ensures complete <==> forall o :: o in OutputsOf(t, ids, {w}) ==> Deep(spends, tip, o)
  {
    hide Deep, OutputsTo;
    funded, complete := false, true;
    for k := 0 to |ids|
      invariant funded <==> OutputsOf(t, ids[..k], {w}) != {}
      invariant complete <==> forall o :: o in OutputsOf(t, ids[..k], {w}) ==> Deep(spends, tip, o)
    {
      assert ids[..k + 1][..k] == ids[..k];
      var id, tx := ids[k], t[ids[k]].tx;
      ghost var was := OutputsOf(t, ids[..k], {w});
      NoOutputs(id, tx, {w});
      for n := 0 to |tx.outs|
        invariant funded <==> was + OutputsTo(id, tx, n, {w}) != {}
        invariant complete <==> forall o :: o in was + OutputsTo(id, tx, n, {w}) ==> Deep(spends, tip, o)
      {
        OneOutput(id, tx, n, {w});
        if tx.outs[n] == w {
          funded := true;
          if !Deep(spends, tip, OutPoint(id, n)) { complete := false; }
        }
      }
    }
    assert ids[..|ids|] == ids;
  }

  lemma NoOutputs(id: TxId, tx: Tx, scripts: set<Script>)
    ensures OutputsTo(id, tx, 0, scripts) == {}
  {
  }

  ghost function Incomplete(bk: Book, ix: Index, kept: set<Hash>, scripts: seq<Script>): seq<Script>
    requires ix.Valid()
  {
    if scripts == [] then []
    else
      var k := |scripts| - 1;
      Incomplete(bk, ix, kept, scripts[..k]) + if Complete(bk, ix, kept, scripts[k]) then [] else [scripts[k]]
  }

  lemma {:induction false} IncompleteAre(bk: Book, ix: Index, kept: set<Hash>, scripts: seq<Script>)
    requires ix.Valid()
    ensures forall w :: w in Incomplete(bk, ix, kept, scripts) <==> w in scripts && !Complete(bk, ix, kept, w)
    decreases |scripts|
  {
    hide Complete;
    if scripts != [] {
      var k := |scripts| - 1;
      assert scripts == scripts[..k] + [scripts[k]];
      IncompleteAre(bk, ix, kept, scripts[..k]);
    }
  }

  /** The watched scripts, in order, without the complete ones. */
  method ActiveScripts(bk: Book, headers: Headers, blocks: set<Hash>, watched: set<Script>) returns (active: seq<Script>)
    requires headers.Valid()
    ensures active == Incomplete(bk, headers.State(), blocks, Ascending(watched))
    ensures forall w :: w in active <==> w in watched && !Complete(bk, headers.State(), blocks, w)
  {
    hide Complete, Transactions, SpendHeights, OutputsOf, Deep;
    ActiveShape(headers.State());
    var t := KnownTransactions(bk, headers, blocks);
    var ids := Ascending(t.Keys);
    AscendingIs(t.Keys);
    var spends := KnownSpends(t, ids);
    var tip := headers.nodes[headers.active[|headers.active| - 1]].height;
    var scripts := Ascending(watched);
    active := [];
    for k := 0 to |scripts|
      invariant active == Incomplete(bk, headers.State(), blocks, scripts[..k])
    {
      assert scripts[..k + 1][..k] == scripts[..k];
      var funded, complete := LookAt(t, ids, spends, tip, scripts[k]);
      FlagsMean(bk, headers.State(), blocks, scripts[k]);
      if !funded || !complete { active := active + [scripts[k]]; }
    }
    assert scripts[..|scripts|] == scripts;
    AscendingIs(watched);
    IncompleteAre(bk, headers.State(), blocks, scripts);
  }

  lemma FlagsMean(bk: Book, ix: Index, kept: set<Hash>, w: Script)
    requires ix.Valid()
    ensures
      var t := Known(bk, ix, kept);
      var ids := Ascending(t.Keys);
      && (forall id :: id in ids ==> id in t)
      && var spends := SpendHeights(t, ids);
         (Complete(bk, ix, kept, w) <==>
            && OutputsOf(t, ids, {w}) != {}
            && forall o :: o in OutputsOf(t, ids, {w}) ==> Deep(spends, ix.Tip().height, o))
  {
    hide Transactions, PaidTo, OutputsOf;
    var t := Known(bk, ix, kept);
    AscendingIs(t.Keys);
    OutputsPaid(t, Ascending(t.Keys), {w});
  }

  /** What is known to be paid to a watched script when a batch begins. */
  method PaidOutputs(t: Table, watched: set<Script>) returns (paid: set<OutPoint>)
    ensures paid == PaidTo(t, watched)
  {
    hide OutputsTo;
    var ids := Ascending(t.Keys);
    AscendingIs(t.Keys);
    paid := {};
    for k := 0 to |ids|
      invariant paid == OutputsOf(t, ids[..k], watched)
    {
      assert ids[..k + 1][..k] == ids[..k];
      var more := PaidOutputsOf(ids[k], t[ids[k]].tx, watched);
      paid := paid + more;
    }
    assert ids[..|ids|] == ids;
    OutputsPaid(t, ids, watched);
  }

  method PaidOutputsOf(id: TxId, tx: Tx, watched: set<Script>) returns (paid: set<OutPoint>)
    ensures paid == OutputsTo(id, tx, |tx.outs|, watched)
  {
    hide OutputsTo;
    paid := {};
    NoOutputs(id, tx, watched);
    for n := 0 to |tx.outs|
      invariant paid == OutputsTo(id, tx, n, watched)
    {
      OneOutput(id, tx, n, watched);
      if tx.outs[n] in watched { paid := paid + {OutPoint(id, n)}; }
    }
  }

  method MatchTx(tx: Tx, wanted: set<Script>, paid: set<OutPoint>) returns (keep: bool, more: set<OutPoint>)
    ensures keep <==> TxMatches(tx, wanted, paid)
    ensures more == PaidBy([tx], wanted)
  {
    keep, more := false, {};
    for k := 0 to |tx.ins|
      invariant keep <==> exists j :: 0 <= j < k && tx.ins[j] in paid
    {
      if tx.ins[k] in paid { keep := true; }
    }
    ghost var spends := keep;
    for n := 0 to |tx.outs|
      invariant keep <==> spends || exists j :: 0 <= j < n && tx.outs[j] in wanted
      invariant more == set i | 0 <= i < n && tx.outs[i] in wanted :: OutPoint(tx.id, i)
    {
      if tx.outs[n] in wanted { keep, more := true, more + {OutPoint(tx.id, n)}; }
    }
    forall o | o in more ensures o in PaidBy([tx], wanted) {
      var i :| 0 <= i < |tx.outs| && tx.outs[i] in wanted && o == OutPoint(tx.id, i);
      assert [tx][0].outs[i] in wanted;
    }
    assert more == PaidBy([tx], wanted);
  }

  /** Within a block an earlier transaction already counts as paid; the block is kept for
      that one anyway. */
  method MatchBlock(txs: seq<Tx>, wanted: set<Script>, paid: set<OutPoint>) returns (keep: bool, paid': set<OutPoint>)
    ensures keep <==> Matches(txs, wanted, paid)
    ensures paid' == paid + PaidBy(txs, wanted)
  {
    hide TxMatches;
    keep, paid' := false, paid;
    for i := 0 to |txs|
      invariant keep <==> Matches(txs[..i], wanted, paid)
      invariant paid' == paid + PaidBy(txs[..i], wanted)
    {
      var hit, more := MatchTx(txs[i], wanted, paid');
      MatchesNext(txs[..i], txs[i], wanted, paid);
      assert txs[..i + 1] == txs[..i] + [txs[i]];
      keep, paid' := keep || hit, paid' + more;
    }
    assert txs[..|txs|] == txs;
  }

  lemma MatchesNext(txs: seq<Tx>, tx: Tx, wanted: set<Script>, paid: set<OutPoint>)
    ensures PaidBy(txs + [tx], wanted) == PaidBy(txs, wanted) + PaidBy([tx], wanted)
    ensures Matches(txs + [tx], wanted, paid) <==>
              Matches(txs, wanted, paid) || TxMatches(tx, wanted, paid + PaidBy(txs, wanted))
  {
    var all := txs + [tx];
    assert all[|txs|] == tx && forall i :: 0 <= i < |txs| ==> all[i] == txs[i];
    PaidByBoth(txs, tx, wanted);
    if Matches(txs, wanted, paid) {
      var i :| 0 <= i < |txs| && TxMatches(txs[i], wanted, paid);
      assert TxMatches(all[i], wanted, paid);
    } else if TxMatches(tx, wanted, paid + PaidBy(txs, wanted)) {
      PayingMatches(txs, wanted, paid);
      assert paid + PaidBy(txs, wanted) == paid;
      assert TxMatches(all[|txs|], wanted, paid);
    }
  }

  lemma PayingMatches(txs: seq<Tx>, wanted: set<Script>, paid: set<OutPoint>)
    ensures PaidBy(txs, wanted) != {} ==> Matches(txs, wanted, paid)
  {
    if o :| o in PaidBy(txs, wanted) {
      var i, n :| 0 <= i < |txs| && 0 <= n < |txs[i].outs| && txs[i].outs[n] in wanted && o == OutPoint(txs[i].id, n);
      assert TxMatches(txs[i], wanted, paid);
    }
  }

  lemma PaidByBoth(txs: seq<Tx>, tx: Tx, wanted: set<Script>)
    ensures PaidBy(txs + [tx], wanted) == PaidBy(txs, wanted) + PaidBy([tx], wanted)
  {
    var all := txs + [tx];
    assert forall i :: 0 <= i < |txs| ==> all[i] == txs[i];
    forall o | o in PaidBy(txs, wanted) ensures o in PaidBy(all, wanted) {
      var i, n :| 0 <= i < |txs| && 0 <= n < |txs[i].outs| && txs[i].outs[n] in wanted && o == OutPoint(txs[i].id, n);
      assert all[i].outs[n] in wanted;
    }
    forall o | o in PaidBy([tx], wanted) ensures o in PaidBy(all, wanted) {
      var n :| 0 <= n < |tx.outs| && tx.outs[n] in wanted && o == OutPoint(tx.id, n);
      assert all[|txs|].outs[n] in wanted;
    }
    forall o | o in PaidBy(all, wanted) ensures o in PaidBy(txs, wanted) + PaidBy([tx], wanted) {
      var i, n :| 0 <= i < |all| && 0 <= n < |all[i].outs| && all[i].outs[n] in wanted && o == OutPoint(all[i].id, n);
      if i < |txs| {
        assert txs[i].outs[n] in wanted;
      } else {
        assert [tx][0].outs[n] in wanted;
      }
    }
  }

  /** The blocks of a batch as they arrive. */
  method ReadBlocks(bk: Book, blocks: seq<Hash>, wanted: set<Script>, paid: set<OutPoint>) returns (found: set<Hash>)
    ensures found == Found(bk, blocks, wanted, paid)
  {
    hide Matches, PaidBy;
    var known := paid;
    found := {};
    for k := 0 to |blocks|
      invariant known == PaidUpTo(bk, blocks[..k], wanted, paid)
      invariant found == Found(bk, blocks[..k], wanted, paid)
    {
      assert blocks[..k + 1][..k] == blocks[..k];
      var keep: bool;
      keep, known := MatchBlock(bk(blocks[k]), wanted, known);
      if keep { found := found + {blocks[k]}; }
    }
    assert blocks[..|blocks|] == blocks;
  }
}
