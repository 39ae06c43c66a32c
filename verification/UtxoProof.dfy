/** The commitment to the set of unspent outputs (`utxo_leaf_hash`, `utxo_root`,
    scripts/bitflash_chain.py), the inclusion proofs cut from it
    (scripts/prove-utxo.py) and their verifier (scripts/verify-utxo-proof.py).
    Digests are the bytes themselves where the scripts write them in hex, and an
    output's fields are the strings that `str` makes of them. */
module UtxoProof {
  import opened Options
  import opened Merkle
  import opened Texts

  const LEAF_TAG := "BTFUTXO1"
  const NODE_TAG := "BTFNODE1"
  const EMPTY_TEXT := "BTFUTXO1|empty"

  datatype Utxo = Utxo(value: string, script: string, height: string, txid: string)

  /** `"|".join`. */
  function Joined(fields: seq<string>): string {
    if fields == [] then ""
    else if |fields| == 1 then fields[0]
    else fields[0] + "|" + Joined(fields[1..])
  }

  function Fields(outpoint: string, u: Utxo): seq<string> {
    [LEAF_TAG, outpoint, u.value, u.script, u.height, u.txid]
  }

  function LeafText(outpoint: string, u: Utxo): string { Joined(Fields(outpoint, u)) }

  function NodeText(l: string, r: string): string { NODE_TAG + "|" + l + r }

  function LeafHash(sha: string -> string, outpoint: string, u: Utxo): string { sha(LeafText(outpoint, u)) }

  function Node(sha: string -> string): (string, string) -> string { (l, r) => sha(NodeText(l, r)) }

  /** The leaves in the order of `keys`, which lists the outpoints. */
  function Leaves(sha: string -> string, keys: seq<string>, utxos: map<string, Utxo>): (s: seq<string>)
    requires forall i :: 0 <= i < |keys| ==> keys[i] in utxos
    ensures |s| == |keys|
    ensures forall i :: 0 <= i < |s| ==> s[i] == LeafHash(sha, keys[i], utxos[keys[i]])
  {
    seq(|keys|, i requires 0 <= i < |keys| => LeafHash(sha, keys[i], utxos[keys[i]]))
  }

  function RootOf(sha: string -> string, keys: seq<string>, utxos: map<string, Utxo>): string
    requires forall i :: 0 <= i < |keys| ==> keys[i] in utxos
  {
    if keys == [] then sha(EMPTY_TEXT) else Root(Node(sha), Leaves(sha, keys, utxos))
  }

  // ---- building -----------------------------------------------------------------

  /** One layer up, as both scripts loop over it. */
  method NextLayer(sha: string -> string, layer: seq<string>) returns (next: seq<string>)
    ensures next == Next(Node(sha), layer)
  {
    next := [];
    var i := 0;
    while i < |layer|
      invariant 0 <= i <= |layer| + 1 && i % 2 == 0 && |next| == i / 2
      invariant forall k :: 0 <= k < |next| ==> next[k] == Next(Node(sha), layer)[k]
    {
      var left := layer[i];
      var right := if i + 1 < |layer| then layer[i + 1] else left;
      assert Pair(layer, i / 2) == (left, right);
      next := next + [sha(NodeText(left, right))];
      i := i + 2;
    }
  }

  /** The root over all outputs of the set, and the order of outpoints it is taken in. */
  method UtxoRoot(sha: string -> string, utxos: map<string, Utxo>) returns (root: string, keys: seq<string>)
    ensures Lists(keys, utxos.Keys) && root == RootOf(sha, keys, utxos)
  {
    keys := SortedKeys(utxos.Keys);
    assert forall i :: 0 <= i < |keys| ==> keys[i] in keys;
    var layer := Leaves(sha, keys, utxos);
    if layer == [] { return sha(EMPTY_TEXT), keys; }
    while |layer| > 1
      invariant layer != [] && Root(Node(sha), layer) == RootOf(sha, keys, utxos)
      decreases |layer|
    {
      layer := NextLayer(sha, layer);
    }
    root := layer[0];
  }

  /** The commitment is to the set: there is one order to list it in. */
  lemma OneRootPerSet(sha: string -> string, utxos: map<string, Utxo>, s: seq<string>, t: seq<string>)
    requires Lists(s, utxos.Keys) && Lists(t, utxos.Keys)
    ensures (forall i :: 0 <= i < |s| ==> s[i] in utxos) && (forall i :: 0 <= i < |t| ==> t[i] in utxos)
    ensures RootOf(sha, s, utxos) == RootOf(sha, t, utxos)
  {
    OneList(s, t, utxos.Keys);
    assert forall i :: 0 <= i < |s| ==> s[i] in s;
  }

  /** A sibling on the way up: `left` says on which side it stands. */
  datatype Sibling = Sibling(left: bool, hash: string, duplicated: bool)

  function SiblingOf(layer: seq<string>, index: nat): Sibling
    requires index < |layer|
  {
    if index % 2 == 0 then
      Sibling(false, if index + 1 >= |layer| then layer[index] else layer[index + 1], index + 1 >= |layer|)
    else Sibling(true, layer[index - 1], false)
  }

  function PathOf(join: (string, string) -> string, layer: seq<string>, index: nat): seq<Sibling>
    requires index < |layer|
    decreases |layer|
  {
    if |layer| == 1 then [] else [SiblingOf(layer, index)] + PathOf(join, Next(join, layer), index / 2)
  }

  method BuildMerkleProof(sha: string -> string, leaves: seq<string>, index: nat)
      returns (proof: seq<Sibling>, root: string)
    requires index < |leaves|
    ensures root == Root(Node(sha), leaves)
    ensures Fold(Node(sha), leaves[index], proof) == root
    ensures |proof| == Height(|leaves|)
  {
    var join := Node(sha);
    var layer := leaves;
    var at: nat := index;
    proof := [];
    while |layer| > 1
      invariant at < |layer|
      invariant Root(join, layer) == Root(join, leaves)
      invariant proof + PathOf(join, layer, at) == PathOf(join, leaves, index)
      decreases |layer|
    {
      var sibling := SiblingOf(layer, at);
      assert proof + PathOf(join, layer, at) == (proof + [sibling]) + PathOf(join, Next(join, layer), at / 2);
      proof := proof + [sibling];
      layer := NextLayer(sha, layer);
      at := at / 2;
    }
    root := layer[0];
    assert proof == PathOf(join, leaves, index);
    PathFolds(join, leaves, index);
  }

  // ---- folding --------------------------------------------------------------------

  function Up(join: (string, string) -> string, x: string, s: Sibling): string {
    if s.left then join(s.hash, x) else join(x, s.hash)
  }

  /** The hash a path leads to, from the leaf up. */
  function Fold(join: (string, string) -> string, x: string, path: seq<Sibling>): string {
    if path == [] then x else Up(join, Fold(join, x, path[..|path| - 1]), path[|path| - 1])
  }

  lemma {:induction false} FoldFirst(join: (string, string) -> string, x: string, s: Sibling, rest: seq<Sibling>)
    ensures Fold(join, x, [s] + rest) == Fold(join, Up(join, x, s), rest)
    decreases |rest|
  {
    var path := [s] + rest;
    if rest == [] {
      assert path[..0] == [];
    } else {
      assert path[..|path| - 1] == [s] + rest[..|rest| - 1];
      FoldFirst(join, x, s, rest[..|rest| - 1]);
    }
  }

  /** Completeness: the path built for a member folds to the root, and is as long as
      the tree is high. */
  lemma {:induction false} PathFolds(join: (string, string) -> string, layer: seq<string>, index: nat)
    requires index < |layer|
    ensures Fold(join, layer[index], PathOf(join, layer, index)) == Root(join, layer)
    ensures |PathOf(join, layer, index)| == Height(|layer|)
    decreases |layer|
  {
    if |layer| > 1 {
      hide PathOf, Root, Height, Next, SiblingOf, Fold, Up;
      OneUp(join, layer, index);
      var next := Next(join, layer);
      PathFolds(join, next, index / 2);
      FoldFirst(join, layer[index], SiblingOf(layer, index), PathOf(join, next, index / 2));
    }
  }

  /** The first step of a path. */
  lemma OneUp(join: (string, string) -> string, layer: seq<string>, index: nat)
    requires |layer| > 1 && index < |layer|
    ensures
      var s, next := SiblingOf(layer, index), Next(join, layer);
      && index / 2 < |next| < |layer| && Up(join, layer[index], s) == next[index / 2]
      && PathOf(join, layer, index) == [s] + PathOf(join, next, index / 2)
      && Root(join, layer) == Root(join, next) && Height(|layer|) == 1 + Height(|next|)
  {
    var next := Next(join, layer);
    assert next[index / 2] == join(Pair(layer, index / 2).0, Pair(layer, index / 2).1);
  }

  // ---- soundness of a fold ----------------------------------------------------------

  function StepPair(x: string, s: Sibling): (string, string) {
    if s.left then (s.hash, x) else (x, s.hash)
  }

  /** The pairs hashed while folding. */
  ghost function FoldPairs(join: (string, string) -> string, x: string, path: seq<Sibling>): set<(string, string)> {
    if path == [] then {}
    else
      var init := path[..|path| - 1];
      FoldPairs(join, x, init) + {StepPair(Fold(join, x, init), path[|path| - 1])}
  }

  /** A hash one level up was made of two hashes of this level. */
  lemma Below(join: (string, string) -> string, s: set<(string, string)>, l: seq<string>, p: (string, string))
    requires |l| > 1 && CollisionFree(join, s) && Hashed(join, l) <= s && p in s
    requires join(p.0, p.1) in Next(join, l)
    ensures p.0 in l && p.1 in l
  {
    var i :| 0 <= i < |Next(join, l)| && Next(join, l)[i] == join(p.0, p.1);
    PairHashed(join, l, i);
    assert p == Pair(l, i);
  }

  /** Any path that ends in the tree, of whatever length, starts at one of its leaves:
      too short and it would start at an inner hash, too long and it would pass one. */
  lemma {:induction false} FoldMember(join: (string, string) -> string, s: set<(string, string)>, leaves: seq<string>,
                                      k: nat, x: string, path: seq<Sibling>)
    requires leaves != [] && k <= Height(|leaves|)
    requires CollisionFree(join, s) && NotHashes(join, s, leaves) && NotHashes(join, s, [x])
    requires FoldPairs(join, x, path) <= s
    requires forall j :: 0 <= j <= k ==> Hashed(join, Level(join, leaves, j)) <= s
    requires forall j :: 0 <= j < k ==> |Level(join, leaves, j)| > 1
    requires Fold(join, x, path) in Level(join, leaves, k)
    ensures |path| == k && x in leaves
    decreases |path|
  {
    if path == [] {
      if k > 0 {
        LevelNext(join, leaves, k - 1);
        InnerIsHash(join, s, Level(join, leaves, k - 1), x);
      }
    } else {
      var init := path[..|path| - 1];
      var v := Fold(join, x, init);
      var p := StepPair(v, path[|path| - 1]);
      assert p in s && Fold(join, x, path) == join(p.0, p.1);
      if k > 0 {
        LevelNext(join, leaves, k - 1);
        Below(join, s, Level(join, leaves, k - 1), p);
        FoldMember(join, s, leaves, k - 1, x, init);
      }
    }
  }

  lemma InnerIsHash(join: (string, string) -> string, s: set<(string, string)>, l: seq<string>, x: string)
    requires |l| > 1 && Hashed(join, l) <= s && NotHashes(join, s, [x])
    ensures x !in Next(join, l)
  {
    forall i | 0 <= i < |Next(join, l)|
      ensures Next(join, l)[i] != [x][0]
    {
      PairHashed(join, l, i);
      assert Pair(l, i) in s;
    }
  }

  // ---- the texts that are hashed ------------------------------------------------------

  /** How many bars a text holds. */
  function Bars(s: string): nat {
    if s == "" then 0 else (if s[0] == '|' then 1 else 0) + Bars(s[1..])
  }

  lemma {:induction false} BarsConcat(a: string, b: string)
    ensures Bars(a + b) == Bars(a) + Bars(b)
  {
    if a == "" {
      assert a + b == b;
    } else {
      BarsConcat(a[1..], b);
      assert (a + b)[1..] == a[1..] + b;
    }
  }

  predicate Clean(s: string) { Bars(s) == 0 }

  function AllBars(fields: seq<string>): nat {
    if fields == [] then 0 else Bars(fields[0]) + AllBars(fields[1..])
  }

  lemma {:induction false} JoinedBars(fields: seq<string>)
    requires fields != []
    ensures Bars(Joined(fields)) == AllBars(fields) + |fields| - 1
  {
    if |fields| == 1 {
      assert AllBars(fields[1..]) == 0;
    } else {
      JoinedBars(fields[1..]);
      BarsConcat(fields[0] + "|", Joined(fields[1..]));
      BarsConcat(fields[0], "|");
      assert Bars("|") == 1 by { assert "|"[1..] == ""; }
    }
  }

  /** A text without bars in front of the first bar can be read back. */
  lemma {:induction false} SplitFirst(a: string, s: string, b: string, t: string)
    requires Clean(a) && Clean(b) && a + "|" + s == b + "|" + t
    ensures a == b && s == t
  {
    var w := a + "|" + s;
    assert w[0] == if a == "" then '|' else a[0];
    assert w[0] == if b == "" then '|' else b[0];
    if a == "" {
      assert w[1..] == s && w[1..] == t;
    } else {
      assert w[1..] == a[1..] + "|" + s;
      assert w[1..] == b[1..] + "|" + t;
      SplitFirst(a[1..], s, b[1..], t);
      assert a == [a[0]] + a[1..] && b == [b[0]] + b[1..];
    }
  }

  lemma {:induction false} CleanFieldsUnique(a: seq<string>, b: seq<string>)
    requires |a| == |b| && AllBars(a) == 0 && AllBars(b) == 0 && Joined(a) == Joined(b)
    ensures a == b
  {
    if |a| > 1 {
      SplitFirst(a[0], Joined(a[1..]), b[0], Joined(b[1..]));
      CleanFieldsUnique(a[1..], b[1..]);
      assert a == [a[0]] + a[1..] && b == [b[0]] + b[1..];
    }
  }

  /** Bars in the claimed fields cannot shift what the honest fields say: the count of
      bars gives them away. */
  lemma FieldsUnique(a: seq<string>, b: seq<string>)
    requires |a| == |b| && a != [] && AllBars(a) == 0 && Joined(a) == Joined(b)
    ensures a == b
  {
    JoinedBars(a);
    JoinedBars(b);
    CleanFieldsUnique(a, b);
  }

  predicate CleanUtxo(outpoint: string, u: Utxo) {
    Clean(outpoint) && Clean(u.value) && Clean(u.script) && Clean(u.height) && Clean(u.txid)
  }

  lemma LeafTextUnique(k: string, u: Utxo, outpoint: string, v: Utxo)
    requires CleanUtxo(k, u) && LeafText(k, u) == LeafText(outpoint, v)
    ensures k == outpoint && u == v
  {
    var a, b := Fields(k, u), Fields(outpoint, v);
    TagClean();
    AllBarsClean(a);
    FieldsUnique(a, b);
    assert a[1] == b[1] && a[2] == b[2] && a[3] == b[3] && a[4] == b[4] && a[5] == b[5];
  }

  lemma {:induction false} AllBarsClean(fields: seq<string>)
    requires forall i :: 0 <= i < |fields| ==> Clean(fields[i])
    ensures AllBars(fields) == 0
  {
    if fields != [] {
      AllBarsClean(fields[1..]);
    }
  }

  lemma TagClean()
    ensures Clean(LEAF_TAG) && Clean("empty")
  {
    assert Bars("TXO1") == 0;
    BarsConcat("BTFU", "TXO1");
    assert LEAF_TAG == "BTFU" + "TXO1";
  }

  /** The two domain tags differ in their fourth character. */
  lemma DomainsApart(outpoint: string, u: Utxo, l: string, r: string)
    ensures LeafText(outpoint, u) != NodeText(l, r)
    ensures EMPTY_TEXT != NodeText(l, r)
    ensures LeafText(outpoint, u) != EMPTY_TEXT
  {
    var rest := Fields(outpoint, u)[1..];
    var w := LeafText(outpoint, u);
    assert w == LEAF_TAG + "|" + Joined(rest);
    assert w[3] == 'U' && EMPTY_TEXT[3] == 'U' && NodeText(l, r)[3] == 'N';
    assert w[9..] == Joined(rest) && EMPTY_TEXT[9..] == "empty";
    JoinedBars(rest);
    TagClean();
  }

  lemma NodeTextUnique(p: (string, string), q: (string, string))
    requires |p.0| == |q.0| && NodeText(p.0, p.1) == NodeText(q.0, q.1)
    ensures p == q
  {
    var n, w := |p.0|, NodeText(p.0, p.1);
    assert w[9..9 + n] == p.0 && w[9..9 + n] == q.0;
    assert w[9 + n..] == p.1 && w[9 + n..] == q.1;
  }

  // ---- the verifier ---------------------------------------------------------------------

  /** A step as it stands in the file; `None` where the hash is not hex. */
  datatype JsonStep = JsonStep(side: string, hash: Option<string>)

  /** The file: `utxo` is `None` where a field is missing or not ASCII. */
  datatype Claim = Claim(schema: string, algorithm: string, leafDomain: string, nodeDomain: string,
                         txid: string, vout: string, outpoint: string, utxo: Option<Utxo>, leafHash: string,
                         steps: seq<JsonStep>, root: string)

  datatype Failure = BadSchema | BadAlgorithm | BadLeafDomain | BadNodeDomain | BadOutpoint | NoLeaf | BadLeafHash
                   | BadSibling(level: nat) | BadLength(level: nat) | BadSide(level: nat) | BadRoot

  predicate WellFormed(step: JsonStep) {
    step.hash.Some? && |step.hash.value| == 32 && (step.side == "left" || step.side == "right")
  }

  function SiblingIn(step: JsonStep): Sibling {
    Sibling(step.side == "left", if step.hash.Some? then step.hash.value else "", false)
  }

  function Siblings(steps: seq<JsonStep>): (p: seq<Sibling>)
    ensures |p| == |steps|
    ensures forall i :: 0 <= i < |p| ==> p[i] == SiblingIn(steps[i])
  {
    seq(|steps|, i requires 0 <= i < |steps| => SiblingIn(steps[i]))
  }

  /** What a proof without failures says. */
  ghost predicate Accepted(sha: string -> string, c: Claim, root: string) {
    && c.schema == "bitflash-utxo-inclusion-proof-1" && c.algorithm == "sorted-outpoint-merkle-sha256"
    && c.leafDomain == LEAF_TAG && c.nodeDomain == NODE_TAG
    && c.outpoint == c.txid + ":" + c.vout
    && c.utxo.Some? && c.leafHash == LeafHash(sha, c.outpoint, c.utxo.value)
    && (forall i :: 0 <= i < |c.steps| ==> WellFormed(c.steps[i]))
    && Fold(Node(sha), c.leafHash, Siblings(c.steps)) == root
  }

  /** The fold of `verify`, which goes on past a bad step and remembers it. */
  method FoldSteps(sha: string -> string, start: string, steps: seq<JsonStep>)
      returns (current: string, failures: seq<Failure>)
    ensures failures == [] <==> forall i :: 0 <= i < |steps| ==> WellFormed(steps[i])
    ensures failures == [] ==> current == Fold(Node(sha), start, Siblings(steps))
  {
    current, failures := start, [];
    var i := 0;
    while i < |steps|
      invariant 0 <= i <= |steps|
      invariant failures == [] <==> forall k :: 0 <= k < i ==> WellFormed(steps[k])
      invariant failures == [] ==> current == Fold(Node(sha), start, Siblings(steps)[..i])
    {
      var step := steps[i];
      var sibling := seq(32, k => '\0');
      if step.hash.None? {
        failures := failures + [BadSibling(i)];
      } else {
        sibling := step.hash.value;
      }
      if |sibling| != 32 {
        failures := failures + [BadLength(i)];
      }
      assert Siblings(steps)[..i + 1][..i] == Siblings(steps)[..i];
      if step.side == "right" {
        current := sha(NodeText(current, sibling));
      } else if step.side == "left" {
        current := sha(NodeText(sibling, current));
      } else {
        failures := failures + [BadSide(i)];
      }
      i := i + 1;
    }
    assert Siblings(steps)[..i] == Siblings(steps);
  }

  method Verify(sha: string -> string, c: Claim, expectedRoot: string) returns (failures: seq<Failure>)
    ensures failures == [] <==> Accepted(sha, c, if expectedRoot != "" then expectedRoot else c.root)
  {
    failures := [];
    if c.schema != "bitflash-utxo-inclusion-proof-1" { failures := failures + [BadSchema]; }
    if c.algorithm != "sorted-outpoint-merkle-sha256" { failures := failures + [BadAlgorithm]; }
    if c.leafDomain != LEAF_TAG { failures := failures + [BadLeafDomain]; }
    if c.nodeDomain != NODE_TAG { failures := failures + [BadNodeDomain]; }
    if c.outpoint != c.txid + ":" + c.vout { failures := failures + [BadOutpoint]; }
    var current := seq(32, k => '\0');
    var leafOk := false;
    if c.utxo.Some? {
      current := LeafHash(sha, c.outpoint, c.utxo.value);
      leafOk := c.leafHash == current;
    } else {
      failures := failures + [NoLeaf];
    }
    if !leafOk { failures := failures + [BadLeafHash]; }
    var root := if expectedRoot != "" then expectedRoot else c.root;
    var top, more := FoldSteps(sha, current, c.steps);
    failures := failures + more;
    if top != root { failures := failures + [BadRoot]; }
  }

  // ---- soundness ------------------------------------------------------------------------

  ghost predicate CollisionFreeTexts(sha: string -> string, t: set<string>) {
    forall a, b :: a in t && b in t && sha(a) == sha(b) ==> a == b
  }

  /** Everything hashed to make the root, and everything hashed to check the claim. */
  ghost predicate Covers(t: set<string>, sha: string -> string, keys: seq<string>, utxos: map<string, Utxo>, c: Claim)
    requires forall i :: 0 <= i < |keys| ==> keys[i] in utxos
    requires c.utxo.Some?
  {
    && (forall i :: 0 <= i < |keys| ==> LeafText(keys[i], utxos[keys[i]]) in t)
    && (forall p :: p in Hashed(Node(sha), Leaves(sha, keys, utxos)) ==> NodeText(p.0, p.1) in t)
    && LeafText(c.outpoint, c.utxo.value) in t
    && (forall p :: p in FoldPairs(Node(sha), c.leafHash, Siblings(c.steps)) ==> NodeText(p.0, p.1) in t)
    && EMPTY_TEXT in t
  }

  ghost predicate Digests(sha: string -> string) {
    forall t :: |sha(t)| == 32
  }

  lemma {:induction false} HashedLengths(sha: string -> string, layer: seq<string>, p: (string, string))
    requires Digests(sha) && (forall i :: 0 <= i < |layer| ==> |layer[i]| == 32) && p in Hashed(Node(sha), layer)
    ensures |p.0| == 32
    decreases |layer|
  {
    var next := Next(Node(sha), layer);
    if p in Hashed(Node(sha), next) {
      forall i | 0 <= i < |next|
        ensures |next[i]| == 32
      {
        assert next[i] == sha(NodeText(Pair(layer, i).0, Pair(layer, i).1));
      }
      HashedLengths(sha, next, p);
    } else {
      var i :| 0 <= i < (|layer| + 1) / 2 && p == Pair(layer, i);
    }
  }

  lemma FoldLength(sha: string -> string, x: string, path: seq<Sibling>)
    requires Digests(sha) && |x| == 32
    ensures |Fold(Node(sha), x, path)| == 32
  {
    if path != [] {
      var q := StepPair(Fold(Node(sha), x, path[..|path| - 1]), path[|path| - 1]);
      assert Fold(Node(sha), x, path) == sha(NodeText(q.0, q.1));
    }
  }

  lemma {:induction false} FoldLengths(sha: string -> string, x: string, path: seq<Sibling>, p: (string, string))
    requires Digests(sha) && |x| == 32 && (forall i :: 0 <= i < |path| ==> |path[i].hash| == 32)
    requires p in FoldPairs(Node(sha), x, path)
    ensures |p.0| == 32
    decreases |path|
  {
    var init := path[..|path| - 1];
    if p in FoldPairs(Node(sha), x, init) {
      FoldLengths(sha, x, init, p);
    } else {
      FoldLength(sha, x, init);
    }
  }

  lemma {:induction false} LevelSizes<H>(join: (H, H) -> H, layer: seq<H>, j: nat)
    requires j <= Height(|layer|)
    ensures Hashed(join, Level(join, layer, j)) <= Hashed(join, layer)
    ensures j < Height(|layer|) ==> |Level(join, layer, j)| > 1
    decreases j
  {
    if j > 0 {
      LevelSizes(join, Next(join, layer), j - 1);
      HashedNext(join, layer);
    }
  }

  ghost function AllPairs(sha: string -> string, keys: seq<string>, utxos: map<string, Utxo>, c: Claim): set<(string, string)>
    requires forall i :: 0 <= i < |keys| ==> keys[i] in utxos
  {
    Hashed(Node(sha), Leaves(sha, keys, utxos)) + FoldPairs(Node(sha), c.leafHash, Siblings(c.steps))
  }

  /** On the texts in play the pair hash is injective and no leaf is a pair hash: the
      tags and the fixed lengths see to it. */
  lemma PairsApart(t: set<string>, sha: string -> string, keys: seq<string>, utxos: map<string, Utxo>, c: Claim)
    requires forall i :: 0 <= i < |keys| ==> keys[i] in utxos
    requires Digests(sha) && Accepted(sha, c, Fold(Node(sha), c.leafHash, Siblings(c.steps)))
    requires CollisionFreeTexts(sha, t) && Covers(t, sha, keys, utxos, c)
    ensures var s := AllPairs(sha, keys, utxos, c);
            && CollisionFree(Node(sha), s)
            && NotHashes(Node(sha), s, Leaves(sha, keys, utxos))
            && NotHashes(Node(sha), s, [c.leafHash])
            && (forall p :: p in s ==> sha(EMPTY_TEXT) != sha(NodeText(p.0, p.1)))
  {
    var s := AllPairs(sha, keys, utxos, c);
    forall p | p in s
      ensures |p.0| == 32 && NodeText(p.0, p.1) in t
    {
      if p in Hashed(Node(sha), Leaves(sha, keys, utxos)) {
        HashedLengths(sha, Leaves(sha, keys, utxos), p);
      } else {
        FoldLengths(sha, c.leafHash, Siblings(c.steps), p);
      }
    }
    forall p, q | p in s && q in s && Node(sha)(p.0, p.1) == Node(sha)(q.0, q.1)
      ensures p == q
    {
      NodeTextUnique(p, q);
    }
    forall p, i | p in s && 0 <= i < |keys|
      ensures Leaves(sha, keys, utxos)[i] != Node(sha)(p.0, p.1)
    {
      DomainsApart(keys[i], utxos[keys[i]], p.0, p.1);
    }
    forall p | p in s
      ensures c.leafHash != Node(sha)(p.0, p.1) && sha(EMPTY_TEXT) != sha(NodeText(p.0, p.1))
    {
      DomainsApart(c.outpoint, c.utxo.value, p.0, p.1);
    }
  }

  /** A proof accepted against the root of a set names one of its outputs, with exactly
      the outpoint, value, script, height and transaction id committed to. */
  lemma AcceptedIsMember(t: set<string>, sha: string -> string, keys: seq<string>, utxos: map<string, Utxo>, c: Claim)
    requires keys != [] && forall i :: 0 <= i < |keys| ==> keys[i] in utxos && CleanUtxo(keys[i], utxos[keys[i]])
    requires Digests(sha) && Accepted(sha, c, RootOf(sha, keys, utxos))
    requires CollisionFreeTexts(sha, t) && Covers(t, sha, keys, utxos, c)
    ensures c.outpoint in keys && utxos[c.outpoint] == c.utxo.value
    ensures |c.steps| == Height(|keys|)
  {
    var join, leaves := Node(sha), Leaves(sha, keys, utxos);
    var s, h := AllPairs(sha, keys, utxos, c), Height(|keys|);
    PairsApart(t, sha, keys, utxos, c);
    LevelTop(join, leaves);
    forall j | 0 <= j <= h
      ensures Hashed(join, Level(join, leaves, j)) <= s
      ensures j < h ==> |Level(join, leaves, j)| > 1
    {
      LevelSizes(join, leaves, j);
    }
    FoldMember(join, s, leaves, h, c.leafHash, Siblings(c.steps));
    var i :| 0 <= i < |leaves| && leaves[i] == c.leafHash;
    assert sha(LeafText(keys[i], utxos[keys[i]])) == sha(LeafText(c.outpoint, c.utxo.value));
    LeafTextUnique(keys[i], utxos[keys[i]], c.outpoint, c.utxo.value);
  }

  /** Against the root of the empty set no proof is accepted. */
  lemma EmptySetProvesNothing(t: set<string>, sha: string -> string, utxos: map<string, Utxo>, c: Claim)
    requires Digests(sha) && c.utxo.Some?
    requires CollisionFreeTexts(sha, t) && Covers(t, sha, [], utxos, c)
    ensures !Accepted(sha, c, RootOf(sha, [], utxos))
  {
    var path := Siblings(c.steps);
    if path != [] { LastPair(Node(sha), c.leafHash, path); }
    DomainsApart(c.outpoint, c.utxo.value, "", "");
    if Accepted(sha, c, sha(EMPTY_TEXT)) {
      PairsApart(t, sha, [], utxos, c);
    }
  }

  lemma LastPair(join: (string, string) -> string, x: string, path: seq<Sibling>)
    requires path != []
    ensures exists p :: p in FoldPairs(join, x, path) && Fold(join, x, path) == join(p.0, p.1)
  {
    var p := StepPair(Fold(join, x, path[..|path| - 1]), path[|path| - 1]);
    assert p in FoldPairs(join, x, path);
  }

  /** Completeness end to end: what the prover writes for a member is accepted. */
  lemma BuiltIsAccepted(sha: string -> string, keys: seq<string>, utxos: map<string, Utxo>, index: nat, c: Claim)
    requires index < |keys| && forall i :: 0 <= i < |keys| ==> keys[i] in utxos
    requires Digests(sha)
    requires c.schema == "bitflash-utxo-inclusion-proof-1" && c.algorithm == "sorted-outpoint-merkle-sha256"
    requires c.leafDomain == LEAF_TAG && c.nodeDomain == NODE_TAG
    requires c.outpoint == keys[index] == c.txid + ":" + c.vout && c.utxo == Some(utxos[keys[index]])
    requires c.leafHash == LeafHash(sha, keys[index], utxos[keys[index]])
    requires c.steps == Written(PathOf(Node(sha), Leaves(sha, keys, utxos), index))
    ensures Accepted(sha, c, RootOf(sha, keys, utxos))
  {
    var join, leaves := Node(sha), Leaves(sha, keys, utxos);
    PathFolds(join, leaves, index);
    PathLengths(sha, leaves, index);
    FoldIgnoresFlag(join, c.leafHash, PathOf(join, leaves, index), Siblings(c.steps));
  }

  /** The steps as the prover writes them into the file. */
  function Written(path: seq<Sibling>): (s: seq<JsonStep>)
    ensures |s| == |path|
    ensures forall i :: 0 <= i < |s| ==> s[i] == JsonStep(if path[i].left then "left" else "right", Some(path[i].hash))
  {
    seq(|path|, i requires 0 <= i < |path| => JsonStep(if path[i].left then "left" else "right", Some(path[i].hash)))
  }

  lemma {:induction false} PathLengths(sha: string -> string, layer: seq<string>, index: nat)
    requires Digests(sha) && index < |layer| && forall i :: 0 <= i < |layer| ==> |layer[i]| == 32
    ensures forall i :: 0 <= i < |PathOf(Node(sha), layer, index)| ==> |PathOf(Node(sha), layer, index)[i].hash| == 32
    decreases |layer|
  {
    if |layer| > 1 {
      var next := Next(Node(sha), layer);
      forall i | 0 <= i < |next|
        ensures |next[i]| == 32
      {
        assert next[i] == sha(NodeText(Pair(layer, i).0, Pair(layer, i).1));
      }
      PathLengths(sha, next, index / 2);
    }
  }

  lemma {:induction false} FoldIgnoresFlag(join: (string, string) -> string, x: string, a: seq<Sibling>, b: seq<Sibling>)
    requires |a| == |b| && forall i :: 0 <= i < |a| ==> a[i].left == b[i].left && a[i].hash == b[i].hash
    ensures Fold(join, x, a) == Fold(join, x, b)
    decreases |a|
  {
    if a != [] {
      FoldIgnoresFlag(join, x, a[..|a| - 1], b[..|b| - 1]);
    }
  }
}
