/** Regrouping bytes into five-bit groups and back, the two accumulator loops of
    `CashEncode` and `CashDecode` (src/btcswap.cpp), proved against the number the digits
    spell. */
module Regroup {
  import opened Options
  import opened Powers

  /** The number a run of digits spells, most significant first. */
  function Val(base: nat, d: seq<nat>): nat {
    if d == [] then 0 else Times(Val(base, d[..|d| - 1]), base) + d[|d| - 1]
  }

  function Digits(base: nat, n: nat, v: nat): (d: seq<nat>)
    requires base > 0
    ensures |d| == n && forall i :: 0 <= i < n ==> d[i] < base
  {
    if n == 0 then [] else Digits(base, n - 1, Over(v, base)) + [v % base]
  }

  ghost predicate Below(base: nat, d: seq<nat>) {
    forall i :: 0 <= i < |d| ==> d[i] < base
  }

  /** Digits spell one number only. */
  lemma {:induction false} DigitsOfVal(base: nat, d: seq<nat>)
    requires base > 0 && Below(base, d)
    ensures Digits(base, |d|, Val(base, d)) == d
    decreases |d|
  {
    if d != [] {
      hide Times, Over;
      var n := |d| - 1;
      DigitsOfVal(base, d[..n]);
      OverPush(Val(base, d[..n]), base, d[n]);
    }
  }

  lemma OverPush(q: nat, b: nat, x: nat)
    requires x < b
    ensures Over(Times(q, b) + x, b) == q && (Times(q, b) + x) % b == x
  {
    DivExact(q, b, x);
  }

  lemma {:induction false} ValOfDigits(bits: nat, n: nat, v: nat)
    requires v < Pow2(bits * n)
    ensures Val(Pow2(bits), Digits(Pow2(bits), n, v)) == v
    decreases n
  {
    if n == 0 {
      assert bits * n == 0;
    } else {
      var b := Pow2(bits);
      assert bits * n == bits + bits * (n - 1);
      Pow2Add(bits, bits * (n - 1));
      DivBounds(v, b);
      DivRange(v, b, 0, Pow2(bits * (n - 1)));
      ValOfDigits(bits, n - 1, v / b);
      var d := Digits(b, n, v);
      assert d[..n - 1] == Digits(b, n - 1, Over(v, b));
    }
  }

  lemma {:induction false} ValBound(bits: nat, d: seq<nat>)
    requires Below(Pow2(bits), d)
    ensures Val(Pow2(bits), d) < Pow2(bits * |d|)
    decreases |d|
  {
    if d == [] {
      assert bits * |d| == 0;
    } else {
      hide Pow2;
      var n, b := |d| - 1, Pow2(bits);
      ValBound(bits, d[..n]);
      assert bits * |d| == bits * n + bits;
      Pow2Add(bits * n, bits);
      HornerBound(Val(b, d[..n]), Pow2(bits * n), b, d[n]);
    }
  }

  lemma HornerBound(v: nat, p: nat, b: nat, x: nat)
    requires v < p && x < b
    ensures Times(v, b) + x < p * b
  {
    MulMono(v + 1, p, b);
  }

  lemma ValPush(base: nat, d: seq<nat>, x: nat)
    ensures Val(base, d + [x]) == Times(Val(base, d), base) + x
  {
    assert (d + [x])[..|d|] == d;
  }

  // ---- what the loops compute ---------------------------------------------------------

  /** Groups for `n` bytes, and the zero bits that fill the last one. */
  function GroupsFor(n: nat): nat { (8 * n + 4) / 5 }

  function Filler(n: nat): nat { 5 * GroupsFor(n) - 8 * n }

  function ToGroups(b: seq<nat>): seq<nat> {
    Digits(32, GroupsFor(|b|), Times(Val(256, b), Pow2(Filler(|b|))))
  }

  /** Bytes from groups: fewer than five bits may be left over, and they must be zero. */
  function FromGroups(g: seq<nat>): Option<seq<nat>> {
    var n, pad := 5 * |g| / 8, 5 * |g| % 8;
    if pad >= 5 || Val(32, g) % Pow2(pad) != 0 then None else Some(Digits(256, n, Over(Val(32, g), Pow2(pad))))
  }

  /** Regrouping loses nothing... */
  lemma RegroupRoundTrip(b: seq<nat>)
    requires Below(256, b)
    ensures Below(32, ToGroups(b)) && |ToGroups(b)| == GroupsFor(|b|)
    ensures FromGroups(ToGroups(b)) == Some(b)
  {
    var n, pad := |b|, Filler(|b|);
    var v := Val(256, b);
    var w := Times(v, Pow2(pad));
    ByteBound(b);
    hide Pow2, Val, Digits, Below;
    assert 8 * n + pad == 5 * GroupsFor(n) && pad < 5;
    Pow2Add(8 * n, pad);
    MulStrict(v, Pow2(8 * n), Pow2(pad));
    GroupDigits(GroupsFor(n), w);
    assert 5 * GroupsFor(n) / 8 == n && 5 * GroupsFor(n) % 8 == pad;
    DivExact(v, Pow2(pad), 0);
    DigitsOfVal(256, b);
  }

  lemma ByteBound(b: seq<nat>)
    requires Below(256, b)
    ensures Val(256, b) < Pow2(8 * |b|)
  {
    assert Pow2(8) == 256;
    ValBound(8, b);
  }

  lemma GroupDigits(n: nat, w: nat)
    requires w < Pow2(5 * n)
    ensures Val(32, Digits(32, n, w)) == w && Below(32, Digits(32, n, w))
  {
    assert Pow2(5) == 32;
    ValOfDigits(5, n, w);
  }

  /** ... and each byte string comes from one run of groups only. */
  lemma GroupsUnique(g: seq<nat>)
    requires Below(32, g) && FromGroups(g).Some?
    ensures Below(256, FromGroups(g).value) && ToGroups(FromGroups(g).value) == g
  {
    var n, pad := 5 * |g| / 8, 5 * |g| % 8;
    var w := Val(32, g);
    var v := Over(w, Pow2(pad));
    assert Pow2(5) == 32 && Pow2(8) == 256 by { Pow2Small(); }
    ValBound(5, g);
    Pow2Add(8 * n, pad);
    DivBounds(w, Pow2(pad));
    DivRange(w, Pow2(pad), 0, Pow2(8 * n));
    ValOfDigits(8, n, v);
    assert GroupsFor(n) == |g| && Filler(n) == pad;
    DigitsOfVal(32, g);
  }

  // ---- the loops -------------------------------------------------------------------------

  /** `g` and the bits of `a` below position `k`, read as one number. */
  function Joined(base: nat, g: seq<nat>, k: nat, a: nat): nat {
    Times(Val(base, g), Pow2(k)) + a % Pow2(k)
  }

  lemma MoveArithmetic(v: nat, p: nat, b: nat, a: nat)
    requires p > 0 && b > 0
    ensures p * b > 0
    ensures Times(Times(v, b) + Over(a, p) % b, p) + a % p == Times(v, p * b) + a % (p * b)
  {
    ModSplit(a, p, b);
    var x := a / p % b;
    MulAssoc(v, b, p);
    assert p * b == b * p;
    assert (v * b + x) * p == v * b * p + x * p;
  }

  /** Moving the `w` bits above position `k` from the accumulator to the digits. */
  lemma MoveDigit(w: nat, g: seq<nat>, k: nat, a: nat)
    ensures
      var x := Over(a, Pow2(k)) % Pow2(w);
      Joined(Pow2(w), g + [x], k, a) == Joined(Pow2(w), g, k + w, a)
  {
    hide Pow2, Times, Over, Val;
    var p, b := Pow2(k), Pow2(w);
    ValPush(b, g, Over(a, p) % b);
    Pow2Add(k, w);
    MoveArithmetic(Val(b, g), p, b, a);
  }

  lemma Small(a: nat, p: nat)
    requires a < p
    ensures a % p == a
  {
    DivUnique(a, p, 0);
    DivBounds(a, p);
  }

  lemma TakeArithmetic(v: nat, p: nat, a: nat, b: nat, d: nat)
    requires a < p && d < b
    ensures p * b > 0 && Times(a, b) + d < p * b
    ensures Times(v, p * b) + (Times(a, b) + d) % (p * b) == Times(Times(v, p) + a % p, b) + d
  {
    HornerBound(a, p, b, d);
    Small(Times(a, b) + d, p * b);
    Small(a, p);
    MulAssoc(v, p, b);
    assert (v * p + a) * b == v * p * b + a * b;
  }

  /** Taking one more digit of `w` bits into the accumulator. */
  lemma TakeDigit(base: nat, g: seq<nat>, k: nat, a: nat, w: nat, d: nat)
    requires a < Pow2(k) && d < Pow2(w)
    ensures
      var n := Times(a, Pow2(w)) + d;
      n < Pow2(k + w) && Joined(base, g, k + w, n) == Times(Joined(base, g, k, a), Pow2(w)) + d
  {
    hide Pow2, Times, Over, Val;
    Pow2Add(k, w);
    TakeArithmetic(Val(base, g), Pow2(k), a, Pow2(w), d);
  }

  lemma Masked(base: nat, g: seq<nat>, k: nat, a: nat)
    ensures a % Pow2(k) < Pow2(k) && Joined(base, g, k, a % Pow2(k)) == Joined(base, g, k, a)
  {
    hide Pow2, Times, Val;
    DivBounds(a, Pow2(k));
    Small(a % Pow2(k), Pow2(k));
  }

  /** As many groups as the bytes need, spelling the bytes' number with zeros below it. */
  ghost predicate Spells(groups: seq<nat>, payload: seq<nat>) {
    && |groups| == GroupsFor(|payload|) && Below(32, groups)
    && Val(32, groups) == Times(Val(256, payload), Pow2(Filler(|payload|)))
  }

  lemma SpellsOne(groups: seq<nat>, payload: seq<nat>)
    requires Spells(groups, payload)
    ensures groups == ToGroups(payload)
  {
    DigitsOfVal(32, groups);
  }

  /** Bytes to groups, eight bits in, five bits out, zeros filling the last group. */
  method Spread(payload: seq<nat>) returns (groups: seq<nat>)
    requires Below(256, payload)
    ensures Spells(groups, payload)
  {
    hide Joined, Val, Below, Pow2, Times, Over;
    groups := [];
    var bits: nat, acc: nat := 0, 0;
    EmptyStart(payload);
    for i := 0 to |payload|
      invariant Below(32, groups) && bits < 5 && 5 * |groups| + bits == 8 * i
      invariant acc < Pow2(bits) && Joined(32, groups, bits, acc) == Val(256, payload[..i])
    {
      TakeByte(payload, i, groups, bits, acc);
      acc := Times(acc, 256) + payload[i];
      bits := bits + 8;
      groups, bits := Drained(groups, bits, acc);
      Masked(32, groups, bits, acc);
      acc := acc % Pow2(bits);
    }
    assert payload[..|payload|] == payload;
    Filled(payload, groups, bits, acc);
    if bits > 0 {
      groups := groups + [Times(acc, Pow2(5 - bits)) % 32];
    }
  }

  /** The inner loop: whole groups out of the accumulator, from the top. */
  method Drained(groups0: seq<nat>, bits0: nat, acc: nat) returns (groups: seq<nat>, bits: nat)
    requires Below(32, groups0)
    ensures Below(32, groups) && bits < 5 && 5 * |groups| + bits == 5 * |groups0| + bits0
    ensures Joined(32, groups, bits, acc) == Joined(32, groups0, bits0, acc)
  {
    hide Joined, Val, Below, Pow2, Over;
    groups, bits := groups0, bits0;
    while bits >= 5
      invariant Below(32, groups) && 5 * |groups| + bits == 5 * |groups0| + bits0
      invariant Joined(32, groups, bits, acc) == Joined(32, groups0, bits0, acc)
    {
      bits := bits - 5;
      var x := Over(acc, Pow2(bits)) % 32;
      MoveGroup(groups, bits, acc, x);
      groups := groups + [x];
    }
  }

  lemma Widths()
    ensures Pow2(5) == 32 && Pow2(8) == 256
  {
    Pow2Small();
  }

  lemma EmptyStart(payload: seq<nat>)
    ensures Joined(32, [], 0, 0) == Val(256, payload[..0]) && Joined(256, [], 0, 0) == Val(32, payload[..0])
    ensures 0 < Pow2(0) && Below(32, []) && Below(256, [])
  {
    hide Joined, Times;
    assert 0 < Pow2(0);
    NothingLeft(32, [], 0);
    NothingLeft(256, [], 0);
    assert payload[..0] == [];
  }

  lemma TakeByte(payload: seq<nat>, i: nat, groups: seq<nat>, bits: nat, acc: nat)
    requires Below(256, payload) && i < |payload| && acc < Pow2(bits)
    requires Joined(32, groups, bits, acc) == Val(256, payload[..i])
    ensures Joined(32, groups, bits + 8, Times(acc, 256) + payload[i]) == Val(256, payload[..i + 1])
  {
    hide Joined, Pow2, Times, Val;
    Widths();
    TakeDigit(32, groups, bits, acc, 8, payload[i]);
    assert payload[..i + 1] == payload[..i] + [payload[i]];
    ValPush(256, payload[..i], payload[i]);
  }

  lemma MoveGroup(groups: seq<nat>, bits: nat, acc: nat, x: nat)
    requires Below(32, groups) && x == Over(acc, Pow2(bits)) % 32
    ensures Joined(32, groups + [x], bits, acc) == Joined(32, groups, bits + 5, acc) && Below(32, groups + [x])
  {
    hide Joined, Pow2, Times, Val;
    Widths();
    MoveDigit(5, groups, bits, acc);
  }

  /** The last bits, shifted up into one more group. */
  lemma Filled(payload: seq<nat>, groups: seq<nat>, bits: nat, acc: nat)
    requires Below(32, groups) && bits < 5 && 5 * |groups| + bits == 8 * |payload|
    requires acc < Pow2(bits) && Joined(32, groups, bits, acc) == Val(256, payload)
    ensures Spells(if bits > 0 then groups + [Times(acc, Pow2(5 - bits)) % 32] else groups, payload)
  {
    hide Pow2, Times, Over, Val;
    if bits == 0 {
      assert Filler(|payload|) == 0 && GroupsFor(|payload|) == |groups|;
      NothingLeft(32, groups, acc);
    } else {
      var k := 5 - bits;
      assert Filler(|payload|) == k && GroupsFor(|payload|) == |groups| + 1;
      LastGroup(groups, bits, acc);
      Small(Times(acc, Pow2(k)), 32);
    }
  }

  lemma NothingLeft(base: nat, groups: seq<nat>, acc: nat)
    requires acc < Pow2(0)
    ensures Joined(base, groups, 0, acc) == Val(base, groups) && Times(Val(base, groups), Pow2(0)) == Val(base, groups)
  {
    hide Val;
    assert Pow2(0) == 1 && acc == 0;
    Small(0, 1);
  }

  lemma LastGroup(groups: seq<nat>, bits: nat, acc: nat)
    requires Below(32, groups) && 0 < bits < 5 && acc < Pow2(bits)
    ensures
      var x := Times(acc, Pow2(5 - bits));
      && x < 32 && Below(32, groups + [x])
      && Val(32, groups + [x]) == Times(Joined(32, groups, bits, acc), Pow2(5 - bits))
  {
    var k := 5 - bits;
    var v, p, q := Val(32, groups), Pow2(bits), Pow2(k);
    Pow2Add(bits, k);
    assert Pow2(5) == 32;
    hide Pow2;
    MulStrict(acc, p, q);
    ValPush(32, groups, Times(acc, q));
    MulAssoc(v, p, q);
    assert (v * p + acc) * q == v * p * q + acc * q;
    Small(acc, p);
  }

  /** Groups to bytes, five bits in, eight bits out; what is left over must be fewer than
      five bits, all zero. */
  method Gather(groups: seq<nat>) returns (payload: Option<seq<nat>>)
    requires Below(32, groups)
    ensures payload == FromGroups(groups)
  {
    hide Joined, Val, Below, Pow2, Times, Over, FromGroups;
    var bytes: seq<nat> := [];
    var bits: nat, acc: nat := 0, 0;
    EmptyStart(groups);
    for i := 0 to |groups|
      invariant Below(256, bytes) && bits < 8 && 8 * |bytes| + bits == 5 * i
      invariant acc < Pow2(bits) && Joined(256, bytes, bits, acc) == Val(32, groups[..i])
    {
      TakeGroup(groups, i, bytes, bits, acc);
      acc := Times(acc, 32) + groups[i];
      bits := bits + 5;
      if bits >= 8 {
        bits := bits - 8;
        var x := Over(acc, Pow2(bits)) % 256;
        MoveByte(bytes, bits, acc, x);
        bytes := bytes + [x];
      }
      Masked(256, bytes, bits, acc);
      acc := acc % Pow2(bits);
    }
    assert groups[..|groups|] == groups;
    Gathered(groups, bytes, bits, acc);
    if bits >= 5 || acc != 0 {
      return None;
    }
    return Some(bytes);
  }

  lemma TakeGroup(groups: seq<nat>, i: nat, bytes: seq<nat>, bits: nat, acc: nat)
    requires Below(32, groups) && i < |groups| && acc < Pow2(bits)
    requires Joined(256, bytes, bits, acc) == Val(32, groups[..i])
    ensures Joined(256, bytes, bits + 5, Times(acc, 32) + groups[i]) == Val(32, groups[..i + 1])
  {
    hide Joined, Pow2, Times, Val;
    Widths();
    TakeDigit(256, bytes, bits, acc, 5, groups[i]);
    assert groups[..i + 1] == groups[..i] + [groups[i]];
    ValPush(32, groups[..i], groups[i]);
  }

  lemma MoveByte(bytes: seq<nat>, bits: nat, acc: nat, x: nat)
    requires Below(256, bytes) && x == Over(acc, Pow2(bits)) % 256
    ensures Joined(256, bytes + [x], bits, acc) == Joined(256, bytes, bits + 8, acc) && Below(256, bytes + [x])
  {
    hide Joined, Pow2, Times, Val;
    Widths();
    MoveDigit(8, bytes, bits, acc);
  }

  lemma Gathered(groups: seq<nat>, bytes: seq<nat>, bits: nat, acc: nat)
    requires Below(256, bytes) && bits < 8 && 8 * |bytes| + bits == 5 * |groups|
    requires acc < Pow2(bits) && Joined(256, bytes, bits, acc) == Val(32, groups)
    ensures FromGroups(groups) == if bits >= 5 || acc != 0 then None else Some(bytes)
  {
    hide Pow2, Val, Digits, Times, Over;
    assert 5 * |groups| / 8 == |bytes| && 5 * |groups| % 8 == bits;
    Small(acc, Pow2(bits));
    OverPush(Val(256, bytes), Pow2(bits), acc);
    DigitsOfVal(256, bytes);
  }
}
