/** The treasury's ledger, read from the chain (`scan`, scripts/build-treasury.py): every
    output that pays one script, every spend of one, and the identity between the
    movements and the outputs still open that `build` asserts and `verify` relies on. */
module Treasury {
  import opened Ledger

  datatype Kind = Outgoing | Mined | Transferred
  datatype Movement = Movement(kind: Kind, height: nat, txid: Txid, amount: int)

  function Sum(ms: seq<Movement>): int {
    if ms == [] then 0 else Sum(ms[..|ms| - 1]) + ms[|ms| - 1].amount
  }

  /** The sum `verify` takes: movements no later than a height. */
  function SumUpTo(ms: seq<Movement>, height: int): int {
    if ms == [] then 0
    else SumUpTo(ms[..|ms| - 1], height) + if ms[|ms| - 1].height <= height then ms[|ms| - 1].amount else 0
  }

  lemma SumPush(ms: seq<Movement>, m: Movement)
    ensures Sum(ms + [m]) == Sum(ms) + m.amount
  {
    assert (ms + [m])[..|ms|] == ms;
  }

  lemma {:induction false} SumUpToSplit(ms: seq<Movement>, more: seq<Movement>, height: int)
    ensures (forall i :: 0 <= i < |more| ==> more[i].height > height) ==> SumUpTo(ms + more, height) == SumUpTo(ms, height)
    ensures (forall i :: 0 <= i < |ms| ==> ms[i].height <= height) ==> SumUpTo(ms, height) == Sum(ms)
    decreases |ms| + |more|
  {
    if more != [] {
      var n := |more| - 1;
      assert (ms + more)[..|ms| + n] == ms + more[..n];
      SumUpToSplit(ms, more[..n], height);
    } else {
      assert ms + more == ms;
      if ms != [] { SumUpToSplit(ms[..|ms| - 1], [], height); }
    }
  }

  // ---- the outputs of one script ---------------------------------------------------

  function Paying(u: Coins, script: Script): Coins {
    map k | k in u && u[k].script == script :: u[k]
  }

  function PaidBack(vout: seq<TxOut>, script: Script): int {
    if vout == [] then 0
    else
      var o := vout[|vout| - 1];
      PaidBack(vout[..|vout| - 1], script) + if o.script == script then o.value else 0
  }

  /** What the scan's own dictionary becomes. */
  function PutPaying(t: Coins, tx: Tx, height: nat, script: Script, n: nat): Coins
    requires n <= |tx.vout|
  {
    if n == 0 then t
    else
      var o := tx.vout[n - 1];
      var v := PutPaying(t, tx, height, script, n - 1);
      if o.script == script then v[(tx.txid, n - 1) := Coin(o.value, o.script, height, IsCoinbase(tx))] else v
  }

  ghost predicate Fresh(u: Coins, txid: Txid) {
    forall k :: k in u ==> k.0 != txid
  }

  lemma {:induction false} PayingSpend(u: Coins, vin: seq<Outpoint>, script: Script)
    ensures Paying(Spend(u, vin), script) == Spend(Paying(u, script), vin)
  {
    if vin != [] {
      PayingSpend(u, vin[..|vin| - 1], script);
    }
  }

  lemma {:induction false} SpendShrinks(u: Coins, vin: seq<Outpoint>)
    ensures forall k :: k in Spend(u, vin) ==> k in u && Spend(u, vin)[k] == u[k]
  {
    if vin != [] {
      SpendShrinks(u, vin[..|vin| - 1]);
    }
  }

  lemma {:induction false} PutKeys(u: Coins, tx: Tx, height: nat, n: nat)
    requires n <= |tx.vout|
    ensures forall k :: k in Put(u, tx, height, n) ==> k in u || (k.0 == tx.txid && k.1 < n)
  {
    if n > 0 {
      PutKeys(u, tx, height, n - 1);
    }
  }

  /** On a fresh transaction id, the scan's dictionary is the part of the unspent outputs
      that pays the script. */
  lemma {:induction false} PayingPut(u: Coins, tx: Tx, height: nat, script: Script, n: nat)
    requires n <= |tx.vout| && Fresh(u, tx.txid)
    ensures Paying(Put(u, tx, height, n), script) == PutPaying(Paying(u, script), tx, height, script, n)
  {
    if n > 0 {
      PayingPut(u, tx, height, script, n - 1);
      PutKeys(u, tx, height, n - 1);
      assert (tx.txid, n - 1) !in Put(u, tx, height, n - 1);
    }
  }

  lemma {:induction false} PutPayingTotal(t: Coins, tx: Tx, height: nat, script: Script, n: nat)
    requires n <= |tx.vout| && Fresh(t, tx.txid)
    ensures Total(PutPaying(t, tx, height, script, n)) == Total(t) + PaidBack(tx.vout[..n], script)
    ensures forall k :: k in PutPaying(t, tx, height, script, n) ==> k in t || (k.0 == tx.txid && k.1 < n)
  {
    if n > 0 {
      PutPayingTotal(t, tx, height, script, n - 1);
      var o, v := tx.vout[n - 1], PutPaying(t, tx, height, script, n - 1);
      assert tx.vout[..n][..n - 1] == tx.vout[..n - 1];
      TotalAdd(v, (tx.txid, n - 1), Coin(o.value, o.script, height, IsCoinbase(tx)));
    }
  }

  // ---- the scan --------------------------------------------------------------------

  datatype Book = Book(utxos: Coins, movements: seq<Movement>, received: int, spent: int, mined: int, transferred: int)

  /** True of the totals whatever the chain: they are the movements added up. */
  ghost predicate Consistent(b: Book) {
    Sum(b.movements) == b.received - b.spent && b.received == b.mined + b.transferred
  }

  predicate EndsInSpendOf(ms: seq<Movement>, txid: Txid) {
    ms != [] && ms[|ms| - 1].kind.Outgoing? && ms[|ms| - 1].txid == txid
  }

  method SpendTreasury(b: Book, tx: Tx, height: nat, script: Script) returns (r: Book)
    requires Consistent(b) && !IsCoinbase(tx)
    ensures Consistent(r) && r.utxos == Spend(b.utxos, tx.vin)
    ensures var taken := Taken(b.utxos, tx.vin);
            r.movements == b.movements + if taken == 0 then [] else
              [Movement(Outgoing, height, tx.txid, PaidBack(tx.vout, script) - taken)]
  {
    r := b;
    var taken := 0;
    var i := 0;
    while i < |tx.vin|
      invariant 0 <= i <= |tx.vin| && r == b.(utxos := r.utxos)
      invariant r.utxos == Spend(b.utxos, tx.vin[..i]) && taken == Taken(b.utxos, tx.vin[..i])
    {
      assert tx.vin[..i + 1][..i] == tx.vin[..i];
      if tx.vin[i] in r.utxos { taken := taken + r.utxos[tx.vin[i]].value; }
      r := r.(utxos := r.utxos - {tx.vin[i]});
      i := i + 1;
    }
    assert tx.vin[..i] == tx.vin;
    if taken != 0 {
      var back := 0;
      i := 0;
      while i < |tx.vout|
        invariant 0 <= i <= |tx.vout| && back == PaidBack(tx.vout[..i], script)
      {
        assert tx.vout[..i + 1][..i] == tx.vout[..i];
        if tx.vout[i].script == script { back := back + tx.vout[i].value; }
        i := i + 1;
      }
      assert tx.vout[..i] == tx.vout;
      var net := taken - back;
      SumPush(r.movements, Movement(Outgoing, height, tx.txid, -net));
      r := r.(spent := r.spent + net, movements := r.movements + [Movement(Outgoing, height, tx.txid, -net)]);
    }
  }

  /** One output: recorded when it pays the script, and income unless it is the change of
      the spend just recorded. */
  method ReceiveOutput(b: Book, tx: Tx, height: nat, script: Script, n: nat) returns (r: Book)
    requires Consistent(b) && n < |tx.vout|
    ensures Consistent(r)
    ensures var o := tx.vout[n];
            && (o.script != script ==> r == b)
            && (o.script == script ==> r.utxos == b.utxos[(tx.txid, n) := Coin(o.value, o.script, height, IsCoinbase(tx))])
            && r.movements == b.movements +
                 if o.script != script || (!IsCoinbase(tx) && EndsInSpendOf(b.movements, tx.txid)) then []
                 else [Movement(if IsCoinbase(tx) then Mined else Transferred, height, tx.txid, o.value)]
  {
    r := b;
    var o := tx.vout[n];
    if o.script == script {
      r := r.(utxos := r.utxos[(tx.txid, n) := Coin(o.value, o.script, height, IsCoinbase(tx))]);
      if IsCoinbase(tx) || !EndsInSpendOf(r.movements, tx.txid) {
        var m := Movement(if IsCoinbase(tx) then Mined else Transferred, height, tx.txid, o.value);
        SumPush(r.movements, m);
        r := r.(received := r.received + o.value, movements := r.movements + [m]);
        r := if IsCoinbase(tx) then r.(mined := r.mined + o.value) else r.(transferred := r.transferred + o.value);
      }
    }
  }

  /** The income of a transaction whose outputs are not change. */
  function Income(tx: Tx, height: nat, script: Script, n: nat): (ms: seq<Movement>)
    requires n <= |tx.vout|
    ensures forall m :: m in ms ==> m.height == height && m.txid == tx.txid && !m.kind.Outgoing?
  {
    if n == 0 then []
    else
      var o := tx.vout[n - 1];
      Income(tx, height, script, n - 1) +
      if o.script == script then [Movement(if IsCoinbase(tx) then Mined else Transferred, height, tx.txid, o.value)] else []
  }

  lemma {:induction false} IncomeSum(ms: seq<Movement>, tx: Tx, height: nat, script: Script, n: nat)
    requires n <= |tx.vout|
    ensures Sum(ms + Income(tx, height, script, n)) == Sum(ms) + PaidBack(tx.vout[..n], script)
  {
    if n == 0 {
      assert ms + [] == ms;
    } else {
      IncomeSum(ms, tx, height, script, n - 1);
      var o, before := tx.vout[n - 1], Income(tx, height, script, n - 1);
      assert tx.vout[..n][..n - 1] == tx.vout[..n - 1];
      if o.script == script {
        var m := Movement(if IsCoinbase(tx) then Mined else Transferred, height, tx.txid, o.value);
        SumPush(ms + before, m);
        assert ms + (before + [m]) == ms + before + [m];
      } else {
        assert Income(tx, height, script, n) == before;
      }
    }
  }

  lemma IncomeStep(ms: seq<Movement>, tx: Tx, height: nat, script: Script, n: nat)
    requires n < |tx.vout|
    ensures var o := tx.vout[n];
            ms + Income(tx, height, script, n) +
              (if o.script != script then [] else
                 [Movement(if IsCoinbase(tx) then Mined else Transferred, height, tx.txid, o.value)])
            == ms + Income(tx, height, script, n + 1)
  {
  }

  lemma IncomeIsNoSpend(ms: seq<Movement>, tx: Tx, height: nat, script: Script, n: nat)
    requires n <= |tx.vout| && !EndsInSpendOf(ms, tx.txid)
    ensures !EndsInSpendOf(ms + Income(tx, height, script, n), tx.txid)
  {
    var more := Income(tx, height, script, n);
    if more != [] {
      assert (ms + more)[|ms + more| - 1] == more[|more| - 1] && more[|more| - 1] in more;
    }
  }

  method ReceiveTreasury(b: Book, tx: Tx, height: nat, script: Script) returns (r: Book)
    requires Consistent(b)
    ensures Consistent(r) && r.utxos == PutPaying(b.utxos, tx, height, script, |tx.vout|)
    ensures r.movements == b.movements +
              if !IsCoinbase(tx) && EndsInSpendOf(b.movements, tx.txid) then [] else Income(tx, height, script, |tx.vout|)
  {
    hide Consistent, EndsInSpendOf, IsCoinbase, Sum;
    r := b;
    ghost var change := !IsCoinbase(tx) && EndsInSpendOf(b.movements, tx.txid);
    var n := 0;
    while n < |tx.vout|
      invariant 0 <= n <= |tx.vout| && Consistent(r)
      invariant r.utxos == PutPaying(b.utxos, tx, height, script, n)
      invariant r.movements == b.movements + if change then [] else Income(tx, height, script, n)
    {
      if !EndsInSpendOf(b.movements, tx.txid) { IncomeIsNoSpend(b.movements, tx, height, script, n); }
      IncomeStep(b.movements, tx, height, script, n);
      r := ReceiveOutput(r, tx, height, script, n);
      n := n + 1;
    }
  }

  ghost predicate Names(es: seq<Entry>, txid: Txid) {
    exists k :: 0 <= k < |es| && es[k].tx.txid == txid
  }

  /** Everything the book says agrees with what is unspent after these transactions. */
  ghost predicate Agrees(b: Book, es: seq<Entry>, script: Script) {
    && b.utxos == Paying(Unspent(es), script)
    && Sum(b.movements) == Total(b.utxos)
    && (forall i :: 0 <= i < |b.movements| ==> Names(es, b.movements[i].txid))
  }

  ghost predicate DistinctTxids(es: seq<Entry>) {
    forall i, j :: 0 <= i < j < |es| ==> es[i].tx.txid != es[j].tx.txid
  }

  lemma {:induction false} UnspentKeys(es: seq<Entry>)
    ensures forall k :: k in Unspent(es) ==> exists i :: 0 <= i < |es| && es[i].tx.txid == k.0
  {
    if es != [] {
      var n := |es| - 1;
      UnspentKeys(es[..n]);
      var u, e := Unspent(es[..n]), es[n];
      SpendShrinks(u, e.tx.vin);
      PutKeys(Inputs(u, e.tx), e.tx, e.height, |e.tx.vout|);
      forall k | k in Unspent(es)
        ensures exists i :: 0 <= i < |es| && es[i].tx.txid == k.0
      {
        if k.0 == e.tx.txid {
          assert es[n].tx.txid == k.0;
        } else {
          assert k in u;
          var i :| 0 <= i < n && es[..n][i].tx.txid == k.0;
          assert es[i].tx.txid == k.0;
        }
      }
    }
  }

  ghost predicate NewTxid(es: seq<Entry>, txid: Txid) {
    forall k :: 0 <= k < |es| ==> es[k].tx.txid != txid
  }

  /** One transaction of `scan`. */
  method ScanTx(b: Book, tx: Tx, height: nat, script: Script, ghost es: seq<Entry>) returns (r: Book)
    requires Consistent(b)
    ensures Consistent(r) && b.movements <= r.movements
    ensures forall i :: |b.movements| <= i < |r.movements| ==> r.movements[i].height == height && r.movements[i].txid == tx.txid
    ensures Agrees(b, es, script) && NewTxid(es, tx.txid) ==> Agrees(r, es + [Entry(tx, height)], script)
  {
    hide Agrees, NewTxid, PutPaying, EndsInSpendOf, PaidBack, Consistent, Spend, Taken;
    var mid := b;
    if !IsCoinbase(tx) {
      mid := SpendTreasury(mid, tx, height, script);
    }
    r := ReceiveTreasury(mid, tx, height, script);
    if Agrees(b, es, script) && NewTxid(es, tx.txid) {
      TxAgrees(b, mid, r, tx, height, script, es);
    }
  }

  lemma TxAgrees(b: Book, mid: Book, r: Book, tx: Tx, height: nat, script: Script, es: seq<Entry>)
    requires Agrees(b, es, script) && NewTxid(es, tx.txid)
    requires mid.utxos == Inputs(b.utxos, tx)
    requires var taken := InputValue(b.utxos, tx);
             mid.movements == b.movements + if taken == 0 then [] else
               [Movement(Outgoing, height, tx.txid, PaidBack(tx.vout, script) - taken)]
    requires r.utxos == PutPaying(mid.utxos, tx, height, script, |tx.vout|)
    requires r.movements == mid.movements +
               if !IsCoinbase(tx) && EndsInSpendOf(mid.movements, tx.txid) then [] else Income(tx, height, script, |tx.vout|)
    ensures Agrees(r, es + [Entry(tx, height)], script)
  {
    hide Unspent, Paying, PutPaying, Total, Sum, Names, NewTxid, Inputs, InputValue;
    TxOpen(b, mid, r, tx, height, script, es);
    TxTotal(b, mid, r, tx, height, script, es);
    MovementSum(b, mid, r, tx, height, script, es);
    MovementTxids(b, mid, r, tx, height, script, es);
  }

  lemma TxOpen(b: Book, mid: Book, r: Book, tx: Tx, height: nat, script: Script, es: seq<Entry>)
    requires b.utxos == Paying(Unspent(es), script) && NewTxid(es, tx.txid)
    requires mid.utxos == Inputs(b.utxos, tx) && r.utxos == PutPaying(mid.utxos, tx, height, script, |tx.vout|)
    ensures r.utxos == Paying(Unspent(es + [Entry(tx, height)]), script)
  {
    hide Paying;
    var u, all := Unspent(es), es + [Entry(tx, height)];
    assert all[..|es|] == es;
    UnspentKeys(es);
    SpendShrinks(u, tx.vin);
    PayingSpend(u, tx.vin, script);
    PayingPut(Inputs(u, tx), tx, height, script, |tx.vout|);
  }

  lemma TxTotal(b: Book, mid: Book, r: Book, tx: Tx, height: nat, script: Script, es: seq<Entry>)
    requires b.utxos == Paying(Unspent(es), script) && NewTxid(es, tx.txid)
    requires mid.utxos == Inputs(b.utxos, tx) && r.utxos == PutPaying(mid.utxos, tx, height, script, |tx.vout|)
    ensures Total(r.utxos) == Total(b.utxos) - InputValue(b.utxos, tx) + PaidBack(tx.vout, script)
  {
    hide Total, Unspent;
    assert tx.vout[..|tx.vout|] == tx.vout;
    UnspentKeys(es);
    SpendShrinks(b.utxos, tx.vin);
    SpendTotal(b.utxos, tx.vin);
    PutPayingTotal(mid.utxos, tx, height, script, |tx.vout|);
  }

  lemma MovementTxids(b: Book, mid: Book, r: Book, tx: Tx, height: nat, script: Script, es: seq<Entry>)
    requires forall i :: 0 <= i < |b.movements| ==> Names(es, b.movements[i].txid)
    requires b.movements <= mid.movements <= r.movements
    requires forall i :: |b.movements| <= i < |mid.movements| ==> mid.movements[i].txid == tx.txid
    requires r.movements == mid.movements || r.movements == mid.movements + Income(tx, height, script, |tx.vout|)
    ensures var all := es + [Entry(tx, height)];
            forall i :: 0 <= i < |r.movements| ==> Names(all, r.movements[i].txid)
  {
    var all := es + [Entry(tx, height)];
    forall i | 0 <= i < |r.movements|
      ensures Names(all, r.movements[i].txid)
    {
      if i < |b.movements| {
        assert r.movements[i] == b.movements[i] && Names(es, b.movements[i].txid);
        var k :| 0 <= k < |es| && es[k].tx.txid == b.movements[i].txid;
        assert all[k] == es[k];
      } else {
        if i >= |mid.movements| {
          assert r.movements[i] in Income(tx, height, script, |tx.vout|);
        }
        assert all[|es|].tx.txid == r.movements[i].txid;
      }
    }
  }

  lemma MovementSum(b: Book, mid: Book, r: Book, tx: Tx, height: nat, script: Script, es: seq<Entry>)
    requires forall i :: 0 <= i < |b.movements| ==> Names(es, b.movements[i].txid)
    requires NewTxid(es, tx.txid)
    requires var taken := InputValue(b.utxos, tx);
             mid.movements == b.movements + if taken == 0 then [] else
               [Movement(Outgoing, height, tx.txid, PaidBack(tx.vout, script) - taken)]
    requires r.movements == mid.movements +
               if !IsCoinbase(tx) && EndsInSpendOf(mid.movements, tx.txid) then [] else Income(tx, height, script, |tx.vout|)
    ensures Sum(r.movements) == Sum(b.movements) + PaidBack(tx.vout, script) - InputValue(b.utxos, tx)
  {
    var taken, back := InputValue(b.utxos, tx), PaidBack(tx.vout, script);
    assert tx.vout[..|tx.vout|] == tx.vout;
    if taken != 0 {
      SumPush(b.movements, Movement(Outgoing, height, tx.txid, back - taken));
      assert EndsInSpendOf(mid.movements, tx.txid);
      assert r.movements == mid.movements;
    } else {
      assert mid.movements == b.movements;
      assert !EndsInSpendOf(b.movements, tx.txid) by {
        if b.movements != [] {
          assert Names(es, b.movements[|b.movements| - 1].txid);
        }
      }
      IncomeSum(b.movements, tx, height, script, |tx.vout|);
    }
  }

  /** What stands open after the blocks up to a height. */
  ghost function OpenAt(blocks: seq<Block>, height: nat, script: Script): Coins
    requires height < |blocks|
  {
    Paying(Unspent(Entries(blocks[..height + 1])), script)
  }

  /** `scan`.  The totals always add up to the movements; with distinct transaction ids
      the dictionary is the unspent outputs that pay the script, and up to every height
      the movements sum to what stood open there. */
  method Scan(blocks: seq<Block>, script: Script) returns (b: Book)
    ensures Consistent(b)
    ensures DistinctTxids(Entries(blocks)) ==>
              && b.utxos == Paying(Unspent(Entries(blocks)), script)
              && Total(b.utxos) == b.received - b.spent
              && SumsMatch(b.movements, blocks, script, |blocks|)
  {
    b := Book(map[], [], 0, 0, 0, 0);
    ghost var distinct := DistinctTxids(Entries(blocks));
    assert blocks[..0] == [] && Paying(map[], script) == map[];
    var height := 0;
    while height < |blocks|
      invariant 0 <= height <= |blocks| && Consistent(b)
      invariant forall i :: 0 <= i < |b.movements| ==> b.movements[i].height < height
      invariant distinct ==> Agrees(b, Entries(blocks[..height]), script)
      invariant distinct ==> SumsMatch(b.movements, blocks, script, height)
    {
      ghost var was := b;
      b := ScanBlock(b, blocks, height, script);
      if distinct { SumsAt(was, b, blocks, height, script); }
      height := height + 1;
    }
    assert blocks[..height] == blocks;
  }

  ghost predicate SumsMatch(ms: seq<Movement>, blocks: seq<Block>, script: Script, height: nat)
    requires height <= |blocks|
  {
    forall h :: 0 <= h < height ==> SumUpTo(ms, h) == Total(OpenAt(blocks, h, script))
  }

  /** Later movements leave the sums at earlier heights alone, and at its own height a
      block brings the sum to what is open after it. */
  lemma SumsAt(was: Book, b: Book, blocks: seq<Block>, height: nat, script: Script)
    requires height < |blocks| && was.movements <= b.movements
    requires forall i :: 0 <= i < |was.movements| ==> was.movements[i].height < height
    requires forall i :: |was.movements| <= i < |b.movements| ==> b.movements[i].height == height
    requires SumsMatch(was.movements, blocks, script, height)
    requires Agrees(b, Entries(blocks[..height + 1]), script)
    ensures SumsMatch(b.movements, blocks, script, height + 1)
  {
    var more := b.movements[|was.movements|..];
    assert b.movements == was.movements + more;
    forall h | 0 <= h < height
      ensures SumUpTo(b.movements, h) == Total(OpenAt(blocks, h, script))
    {
      SumUpToSplit(was.movements, more, h);
    }
    assert forall i :: 0 <= i < |was.movements| ==> b.movements[i] == was.movements[i];
    SumUpToSplit(b.movements, [], height);
  }

  method ScanBlock(b: Book, blocks: seq<Block>, height: nat, script: Script) returns (r: Book)
    requires Consistent(b) && height < |blocks|
    ensures Consistent(r) && b.movements <= r.movements
    ensures forall i :: |b.movements| <= i < |r.movements| ==> r.movements[i].height == height
    ensures DistinctTxids(Entries(blocks)) && Agrees(b, Entries(blocks[..height]), script) ==>
              Agrees(r, Entries(blocks[..height + 1]), script)
  {
    hide Agrees;
    r := b;
    var txs := blocks[height].txs;
    ghost var before, these := Entries(blocks[..height]), EntriesOf(txs, height);
    ghost var good := DistinctTxids(Entries(blocks)) && Agrees(b, before, script);
    var i := 0;
    assert before + these[..0] == before;
    while i < |txs|
      invariant 0 <= i <= |txs| && Consistent(r) && b.movements <= r.movements
      invariant forall k :: |b.movements| <= k < |r.movements| ==> r.movements[k].height == height
      invariant good ==> Agrees(r, before + these[..i], script)
    {
      if good { TxidIsNew(blocks, height, i); }
      r := ScanTx(r, txs[i], height, script, before + these[..i]);
      assert before + these[..i] + [Entry(txs[i], height)] == before + these[..i + 1];
      i := i + 1;
    }
    assert these[..i] == these && blocks[..height + 1][..height] == blocks[..height];
  }

  lemma {:induction false} EntriesPrefix(blocks: seq<Block>, n: nat)
    requires n <= |blocks|
    ensures Entries(blocks[..n]) <= Entries(blocks)
    decreases |blocks| - n
  {
    if n < |blocks| {
      EntriesPrefix(blocks, n + 1);
      assert blocks[..n + 1][..n] == blocks[..n];
    } else {
      assert blocks[..n] == blocks;
    }
  }

  lemma TxidIsNew(blocks: seq<Block>, height: nat, i: nat)
    requires DistinctTxids(Entries(blocks)) && height < |blocks| && i < |blocks[height].txs|
    ensures NewTxid(Entries(blocks[..height]) + EntriesOf(blocks[height].txs, height)[..i], blocks[height].txs[i].txid)
  {
    var before, these, all := Entries(blocks[..height]), EntriesOf(blocks[height].txs, height), Entries(blocks);
    assert blocks[..height + 1][..height] == blocks[..height];
    EntriesPrefix(blocks, height + 1);
    assert before + these <= all;
    forall k | 0 <= k < |before| + i
      ensures (before + these[..i])[k].tx.txid != blocks[height].txs[i].txid
    {
      assert (before + these[..i])[k] == all[k] && all[|before| + i] == these[i];
    }
  }
}
