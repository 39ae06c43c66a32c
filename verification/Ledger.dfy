/** The replay of a chain into its unspent outputs (`apply_blocks`,
    scripts/bitflash_chain.py) and the treasury's ledger (`scan`,
    scripts/build-treasury.py).  An outpoint is its transaction id and index where the
    scripts join the two in a string; values are the scripts' own unbounded integers. */
module Ledger {

  type Txid = nat
  type Script = nat
  type Outpoint = (Txid, nat)

  datatype TxOut = TxOut(value: int, script: Script)
  datatype Tx = Tx(txid: Txid, vin: seq<Outpoint>, vout: seq<TxOut>)
  datatype Block = Block(merkleOk: bool, txs: seq<Tx>)
  datatype Coin = Coin(value: int, script: Script, height: nat, coinbase: bool)

  type Coins = map<Outpoint, Coin>

  predicate IsCoinbase(tx: Tx) {
    |tx.vin| == 1 && tx.vin[0] == (0, 0xFFFF_FFFF)
  }

  // ---- sums ---------------------------------------------------------------------

  ghost function Total(m: Coins): int {
    if m == map[] then 0 else var k :| k in m; m[k].value + Total(m - {k})
  }

  lemma {:induction false} TotalRemove(m: Coins, k: Outpoint)
    requires k in m
    ensures Total(m) == m[k].value + Total(m - {k})
    decreases |m|
  {
    var j :| j in m && Total(m) == m[j].value + Total(m - {j});
    if j != k {
      TotalRemove(m - {j}, k);
      TotalRemove(m - {k}, j);
      assert (m - {j}) - {k} == (m - {k}) - {j};
    }
  }

  lemma TotalAdd(m: Coins, k: Outpoint, c: Coin)
    ensures Total(m[k := c]) == Total(m) + c.value - if k in m then m[k].value else 0
  {
    TotalRemove(m[k := c], k);
    if k in m {
      TotalRemove(m, k);
      assert m[k := c] - {k} == m - {k};
    } else {
      assert m[k := c] - {k} == m;
    }
  }

  function Value(vout: seq<TxOut>): int {
    if vout == [] then 0 else Value(vout[..|vout| - 1]) + vout[|vout| - 1].value
  }

  // ---- one transaction -------------------------------------------------------------

  function Spend(u: Coins, vin: seq<Outpoint>): Coins {
    if vin == [] then u else Spend(u, vin[..|vin| - 1]) - {vin[|vin| - 1]}
  }

  /** The value found under the inputs, each output counted once. */
  function Taken(u: Coins, vin: seq<Outpoint>): int {
    if vin == [] then 0
    else
      var v, k := Spend(u, vin[..|vin| - 1]), vin[|vin| - 1];
      Taken(u, vin[..|vin| - 1]) + if k in v then v[k].value else 0
  }

  function Put(u: Coins, tx: Tx, height: nat, n: nat): Coins
    requires n <= |tx.vout|
  {
    if n == 0 then u
    else
      var o := tx.vout[n - 1];
      Put(u, tx, height, n - 1)[(tx.txid, n - 1) := Coin(o.value, o.script, height, IsCoinbase(tx))]
  }

  /** The value of outputs that an output of the same name replaces. */
  function Lost(u: Coins, tx: Tx, height: nat, n: nat): int
    requires n <= |tx.vout|
  {
    if n == 0 then 0
    else
      var v := Put(u, tx, height, n - 1);
      Lost(u, tx, height, n - 1) + if (tx.txid, n - 1) in v then v[(tx.txid, n - 1)].value else 0
  }

  function Inputs(u: Coins, tx: Tx): Coins {
    if IsCoinbase(tx) then u else Spend(u, tx.vin)
  }

  function InputValue(u: Coins, tx: Tx): int {
    if IsCoinbase(tx) then 0 else Taken(u, tx.vin)
  }

  lemma {:induction false} SpendTotal(u: Coins, vin: seq<Outpoint>)
    ensures Total(u) == Total(Spend(u, vin)) + Taken(u, vin)
  {
    if vin != [] {
      var n := |vin| - 1;
      SpendTotal(u, vin[..n]);
      var v := Spend(u, vin[..n]);
      if vin[n] in v {
        TotalRemove(v, vin[n]);
      } else {
        assert v - {vin[n]} == v;
      }
    }
  }

  lemma {:induction false} PutTotal(u: Coins, tx: Tx, height: nat, n: nat)
    requires n <= |tx.vout|
    ensures Total(Put(u, tx, height, n)) + Lost(u, tx, height, n) == Total(u) + Value(tx.vout[..n])
  {
    if n > 0 {
      PutTotal(u, tx, height, n - 1);
      var o, v := tx.vout[n - 1], Put(u, tx, height, n - 1);
      TotalAdd(v, (tx.txid, n - 1), Coin(o.value, o.script, height, IsCoinbase(tx)));
      assert tx.vout[..n][..n - 1] == tx.vout[..n - 1];
    }
  }

  // ---- a chain ----------------------------------------------------------------------

  /** A transaction and the height of its block, in chain order. */
  datatype Entry = Entry(tx: Tx, height: nat)

  function EntriesOf(txs: seq<Tx>, height: nat): (es: seq<Entry>)
    ensures |es| == |txs| && forall i :: 0 <= i < |es| ==> es[i] == Entry(txs[i], height)
  {
    seq(|txs|, i requires 0 <= i < |txs| => Entry(txs[i], height))
  }

  function Entries(blocks: seq<Block>): seq<Entry> {
    if blocks == [] then []
    else Entries(blocks[..|blocks| - 1]) + EntriesOf(blocks[|blocks| - 1].txs, |blocks| - 1)
  }

  function Unspent(es: seq<Entry>): Coins {
    if es == [] then map[]
    else
      var u, e := Unspent(es[..|es| - 1]), es[|es| - 1];
      Put(Inputs(u, e.tx), e.tx, e.height, |e.tx.vout|)
  }

  /** Sums over the transactions of a chain, each seen against what was unspent before. */
  datatype Sums = Sums(created: int, spent: int, lost: int, coinbase: int, fees: int, deficit: int,
                       normal: nat, missing: seq<(nat, Txid, Outpoint)>, duplicates: seq<(nat, Outpoint)>)

  /** The inputs that name nothing unspent, in order. */
  function MissingOf(u: Coins, vin: seq<Outpoint>, height: nat, txid: Txid): seq<(nat, Txid, Outpoint)> {
    if vin == [] then []
    else
      var k := |vin| - 1;
      MissingOf(u, vin[..k], height, txid) + if vin[k] in Spend(u, vin[..k]) then [] else [(height, txid, vin[k])]
  }

  /** The first `n` outputs that replace one of the same name, in order. */
  function Repeats(u: Coins, tx: Tx, height: nat, n: nat): seq<(nat, Outpoint)>
    requires n <= |tx.vout|
  {
    if n == 0 then []
    else
      var key := (tx.txid, n - 1);
      Repeats(u, tx, height, n - 1) + if key in Put(u, tx, height, n - 1) then [(height, key)] else []
  }

  function Missing(u: Coins, tx: Tx, height: nat): seq<(nat, Txid, Outpoint)> {
    if IsCoinbase(tx) then [] else MissingOf(u, tx.vin, height, tx.txid)
  }

  function SumsOf(es: seq<Entry>): Sums {
    if es == [] then Sums(0, 0, 0, 0, 0, 0, 0, [], [])
    else
      var s, u, e := SumsOf(es[..|es| - 1]), Unspent(es[..|es| - 1]), es[|es| - 1];
      var pays, takes, v := Value(e.tx.vout), InputValue(u, e.tx), Inputs(u, e.tx);
      var normal := !IsCoinbase(e.tx);
      Sums(s.created + pays,
           s.spent + takes,
           s.lost + Lost(v, e.tx, e.height, |e.tx.vout|),
           s.coinbase + (if normal then 0 else pays),
           s.fees + (if normal && takes >= pays then takes - pays else 0),
           s.deficit + (if normal && takes < pays then pays - takes else 0),
           s.normal + (if normal then 1 else 0),
           s.missing + Missing(u, e.tx, e.height),
           s.duplicates + Repeats(v, e.tx, e.height, |e.tx.vout|))
  }

  /** Conservation: what was created is unspent, spent or overwritten. */
  lemma {:induction false} Conservation(es: seq<Entry>)
    ensures Total(Unspent(es)) + SumsOf(es).spent + SumsOf(es).lost == SumsOf(es).created
  {
    if es != [] {
      var init, e := es[..|es| - 1], es[|es| - 1];
      Conservation(init);
      var u := Unspent(init);
      SpendTotal(u, e.tx.vin);
      PutTotal(Inputs(u, e.tx), e.tx, e.height, |e.tx.vout|);
      assert e.tx.vout[..|e.tx.vout|] == e.tx.vout;
    }
  }

  /** Mined less unspent is fees, less what some transactions paid out beyond their
      inputs, plus what was overwritten: for every chain, valid or not. */
  lemma {:induction false} SupplyIdentity(es: seq<Entry>)
    ensures var s := SumsOf(es);
            s.coinbase - Total(Unspent(es)) == s.fees - s.deficit + s.lost
  {
    Conservation(es);
    Split(es);
  }

  lemma {:induction false} Split(es: seq<Entry>)
    ensures var s := SumsOf(es); s.created - s.spent == s.coinbase - s.fees + s.deficit
  {
    if es != [] {
      Split(es[..|es| - 1]);
    }
  }

  lemma {:induction false} NoRepeatsNoLoss(u: Coins, tx: Tx, height: nat, n: nat)
    requires n <= |tx.vout| && Repeats(u, tx, height, n) == []
    ensures Lost(u, tx, height, n) == 0
  {
    if n > 0 { NoRepeatsNoLoss(u, tx, height, n - 1); }
  }

  lemma {:induction false} NoDuplicatesNoLoss(es: seq<Entry>)
    requires SumsOf(es).duplicates == []
    ensures SumsOf(es).lost == 0
  {
    if es != [] {
      var u, e := Unspent(es[..|es| - 1]), es[|es| - 1];
      NoDuplicatesNoLoss(es[..|es| - 1]);
      NoRepeatsNoLoss(Inputs(u, e.tx), e.tx, e.height, |e.tx.vout|);
    }
  }

  /** The reported delta is the reported fees exactly when overwriting and paying beyond
      one's inputs cancel; in particular on a chain with neither. */
  lemma DeltaIsFees(es: seq<Entry>)
    ensures var s := SumsOf(es); s.coinbase - Total(Unspent(es)) == s.fees <==> s.deficit == s.lost
    ensures var s := SumsOf(es); s.duplicates == [] && s.deficit == 0 ==> s.coinbase - Total(Unspent(es)) == s.fees
  {
    SupplyIdentity(es);
    if SumsOf(es).duplicates == [] { NoDuplicatesNoLoss(es); }
  }

  // ---- the replay itself ---------------------------------------------------------------

  /** The running totals of `apply_blocks`. */
  datatype Books = Books(utxos: Coins, spent: int, coinbase: int, fees: int, normal: nat,
                         missing: seq<(nat, Txid, Outpoint)>, duplicates: seq<(nat, Outpoint)>)

  datatype Replay = BadMerkleRoot(height: nat) | DuplicateOutput(height: nat, outpoint: Outpoint) | Replayed(books: Books)

  ghost predicate Matches(b: Books, es: seq<Entry>) {
    var s := SumsOf(es);
    && b.utxos == Unspent(es) && b.spent == s.spent && b.coinbase == s.coinbase && b.fees == s.fees
    && b.normal == s.normal && b.missing == s.missing && b.duplicates == s.duplicates
  }

  method SpendInputs(u: Coins, tx: Tx, height: nat) returns (v: Coins, taken: int, missing: seq<(nat, Txid, Outpoint)>)
    ensures v == Spend(u, tx.vin) && taken == Taken(u, tx.vin)
    ensures missing == MissingOf(u, tx.vin, height, tx.txid)
  {
    v, taken, missing := u, 0, [];
    var i := 0;
    while i < |tx.vin|
      invariant 0 <= i <= |tx.vin|
      invariant v == Spend(u, tx.vin[..i]) && taken == Taken(u, tx.vin[..i])
      invariant missing == MissingOf(u, tx.vin[..i], height, tx.txid)
    {
      var prev := tx.vin[i];
      assert tx.vin[..i + 1][..i] == tx.vin[..i];
      if prev in v {
        taken := taken + v[prev].value;
      } else {
        missing := missing + [(height, tx.txid, prev)];
      }
      v := v - {prev};
      i := i + 1;
    }
    assert tx.vin[..i] == tx.vin;
  }

  method AddOutputs(u: Coins, tx: Tx, height: nat) returns (v: Coins, repeats: seq<(nat, Outpoint)>)
    ensures v == Put(u, tx, height, |tx.vout|) && repeats == Repeats(u, tx, height, |tx.vout|)
  {
    v, repeats := u, [];
    var n := 0;
    while n < |tx.vout|
      invariant 0 <= n <= |tx.vout|
      invariant v == Put(u, tx, height, n) && repeats == Repeats(u, tx, height, n)
    {
      var key := (tx.txid, n);
      if key in v { repeats := repeats + [(height, key)]; }
      v := v[key := Coin(tx.vout[n].value, tx.vout[n].script, height, IsCoinbase(tx))];
      n := n + 1;
    }
  }

  method SumOutputs(vout: seq<TxOut>) returns (sum: int)
    ensures sum == Value(vout)
  {
    sum := 0;
    var i := 0;
    while i < |vout|
      invariant 0 <= i <= |vout| && sum == Value(vout[..i])
    {
      assert vout[..i + 1][..i] == vout[..i];
      sum := sum + vout[i].value;
      i := i + 1;
    }
    assert vout[..i] == vout;
  }

  method ApplyTx(b: Books, tx: Tx, height: nat, ghost es: seq<Entry>) returns (r: Books)
    requires Matches(b, es)
    ensures Matches(r, es + [Entry(tx, height)])
    ensures |b.duplicates| <= |r.duplicates|
  {
    ghost var all := es + [Entry(tx, height)];
    assert all[..|all| - 1] == es && all[|all| - 1] == Entry(tx, height);
    r := b;
    var pays := SumOutputs(tx.vout);
    if IsCoinbase(tx) {
      r := r.(coinbase := r.coinbase + pays);
    } else {
      var v, taken, missing := SpendInputs(r.utxos, tx, height);
      r := r.(utxos := v, spent := r.spent + taken, normal := r.normal + 1, missing := r.missing + missing);
      if taken >= pays { r := r.(fees := r.fees + taken - pays); }
    }
    var w, repeats := AddOutputs(r.utxos, tx, height);
    r := r.(utxos := w, duplicates := r.duplicates + repeats);
  }

  /** The first output that a chain repeats, if any. */
  ghost predicate FirstRepeat(es: seq<Entry>, height: nat, outpoint: Outpoint) {
    SumsOf(es).duplicates != [] && SumsOf(es).duplicates[0] == (height, outpoint)
  }

  /** A longer chain has the same duplicates and perhaps more. */
  lemma {:induction false} RepeatsGrow(es: seq<Entry>, more: seq<Entry>)
    ensures SumsOf(es).duplicates <= SumsOf(es + more).duplicates
    decreases |more|
  {
    if more == [] {
      assert es + more == es;
    } else {
      var k := |more| - 1;
      RepeatsGrow(es, more[..k]);
      assert (es + more)[..|es + more| - 1] == es + more[..k];
    }
  }

  method ApplyBlock(b: Books, txs: seq<Tx>, height: nat, strict: bool, ghost before: seq<Entry>) returns (r: Replay)
    requires Matches(b, before) && (strict ==> b.duplicates == [])
    ensures r.Replayed? ==> Matches(r.books, before + EntriesOf(txs, height)) && (strict ==> r.books.duplicates == [])
    ensures r.DuplicateOutput? ==> strict && r.height == height && FirstRepeat(before + EntriesOf(txs, height), height, r.outpoint)
    ensures !r.BadMerkleRoot?
  {
    hide Matches, SumsOf, FirstRepeat, Unspent;
    ghost var these := EntriesOf(txs, height);
    var books := b;
    var i := 0;
    assert before + these[..0] == before;
    while i < |txs|
      invariant 0 <= i <= |txs|
      invariant Matches(books, before + these[..i])
      invariant strict ==> books.duplicates == []
    {
      SameRepeats(books, before + these[..i]);
      books := ApplyTx(books, txs[i], height, before + these[..i]);
      assert before + these[..i] + [Entry(txs[i], height)] == before + these[..i + 1];
      if strict && books.duplicates != [] {
        RepeatNamed(books, before + these[..i], txs[i], height, these[i + 1..]);
        assert before + these[..i] + [Entry(txs[i], height)] + these[i + 1..] == before + these;
        return DuplicateOutput(height, books.duplicates[0].1);
      }
      i := i + 1;
    }
    assert these[..i] == these;
    r := Replayed(books);
  }

  lemma RepeatNamed(b: Books, es: seq<Entry>, tx: Tx, height: nat, rest: seq<Entry>)
    requires Matches(b, es + [Entry(tx, height)]) && b.duplicates != [] && SumsOf(es).duplicates == []
    ensures FirstRepeat(es + [Entry(tx, height)] + rest, height, b.duplicates[0].1)
  {
    var all := es + [Entry(tx, height)];
    assert all[..|all| - 1] == es && all[|all| - 1] == Entry(tx, height);
    RepeatsGrow(all, rest);
    RepeatsHere(Inputs(Unspent(es), tx), tx, height, |tx.vout|);
    assert b.duplicates == [] + Repeats(Inputs(Unspent(es), tx), tx, height, |tx.vout|);
  }

  lemma {:induction false} RepeatsHere(u: Coins, tx: Tx, height: nat, n: nat)
    requires n <= |tx.vout|
    ensures forall i :: 0 <= i < |Repeats(u, tx, height, n)| ==> Repeats(u, tx, height, n)[i].0 == height
  {
    if n > 0 {
      RepeatsHere(u, tx, height, n - 1);
    }
  }

  /** `apply_blocks`: the unspent outputs and totals of the chain, or the first reason to
      refuse it: a block whose root is wrong after blocks that are fine, or, when that is
      asked for, the very first output that repeats another. */
  method ApplyBlocks(blocks: seq<Block>, strict: bool) returns (r: Replay)
    ensures r.Replayed? <==> (forall h :: 0 <= h < |blocks| ==> blocks[h].merkleOk)
                             && (strict ==> SumsOf(Entries(blocks)).duplicates == [])
    ensures r.Replayed? ==> Matches(r.books, Entries(blocks))
    ensures r.BadMerkleRoot? ==>
              && r.height < |blocks| && !blocks[r.height].merkleOk
              && (forall h :: 0 <= h < r.height ==> blocks[h].merkleOk)
              && (strict ==> SumsOf(Entries(blocks[..r.height])).duplicates == [])
    ensures r.DuplicateOutput? ==>
              && strict && r.height < |blocks| && FirstRepeat(Entries(blocks), r.height, r.outpoint)
              && (forall h :: 0 <= h <= r.height ==> blocks[h].merkleOk)
  {
    hide SumsOf, Matches;
    var b := Books(map[], 0, 0, 0, 0, [], []);
    var height := 0;
    NothingApplied(b);
    while height < |blocks|
      invariant 0 <= height <= |blocks|
      invariant Matches(b, Entries(blocks[..height]))
      invariant forall h :: 0 <= h < height ==> blocks[h].merkleOk
      invariant strict ==> b.duplicates == []
    {
      SameRepeats(b, Entries(blocks[..height]));
      if !blocks[height].merkleOk { return BadMerkleRoot(height); }
      var done := ApplyBlock(b, blocks[height].txs, height, strict, Entries(blocks[..height]));
      assert blocks[..height + 1][..height] == blocks[..height];
      if !done.Replayed? {
        RepeatStays(blocks, height + 1, done.height, done.outpoint);
        return done;
      }
      b := done.books;
      height := height + 1;
    }
    assert blocks[..height] == blocks;
    SameRepeats(b, Entries(blocks));
    r := Replayed(b);
  }

  lemma NothingApplied(b: Books)
    requires b == Books(map[], 0, 0, 0, 0, [], [])
    ensures Matches(b, Entries([]))
  {
  }

  lemma SameRepeats(b: Books, es: seq<Entry>)
    requires Matches(b, es)
    ensures SumsOf(es).duplicates == b.duplicates
  {
  }

  lemma RepeatStays(blocks: seq<Block>, n: nat, height: nat, outpoint: Outpoint)
    requires n <= |blocks| && FirstRepeat(Entries(blocks[..n]), height, outpoint)
    ensures FirstRepeat(Entries(blocks), height, outpoint)
  {
    hide SumsOf;
    var more := EntriesGrow(blocks, n);
    RepeatsGrow(Entries(blocks[..n]), more);
  }

  lemma {:induction false} EntriesGrow(blocks: seq<Block>, n: nat) returns (more: seq<Entry>)
    requires n <= |blocks|
    ensures Entries(blocks) == Entries(blocks[..n]) + more
    decreases |blocks|
  {
    if n == |blocks| {
      more := [];
      assert blocks[..n] == blocks;
    } else {
      var k := |blocks| - 1;
      var m := EntriesGrow(blocks[..k], n);
      assert blocks[..k][..n] == blocks[..n];
      more := m + EntriesOf(blocks[k].txs, k);
    }
  }
}
