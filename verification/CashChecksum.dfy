/** The checksum of a cashaddr (`CashPolyMod`, src/btcswap.cpp): 40 bits that each
    five-bit group shifts through five feedback words.  The state never leaves 40 bits,
    so it is a `bv40`. */
module CashChecksum {

  type Poly = bv40
  type Group = x: int | 0 <= x < 32

  function Xor(a: Poly, b: Poly): Poly { a ^ b }

  function Shl(c: Poly): Poly { (c & 0x07_ffff_ffff) << 5 }

  function Top(c: Poly): Poly { c >> 35 }

  /** One feedback word, when its bit of the five shifted out is set. */
  function Tap(c0: Poly, bit: Poly, word: Poly): Poly { if c0 & bit != 0 then word else 0 }

  function Step(c: Poly, d: Poly): Poly {
    var c0 := Top(c);
    Xor(Xor(Xor(Xor(Xor(Xor(Shl(c), d),
      Tap(c0, 0x01, 0x98_f2bc_8e61)),
      Tap(c0, 0x02, 0x79_b76d_99e2)),
      Tap(c0, 0x04, 0xf3_3e5f_b3c4)),
      Tap(c0, 0x08, 0xae_2eab_e2a8)),
      Tap(c0, 0x10, 0x1e_4f43_e470))
  }

  /** A group as the low bits of a state. */
  function Bv(g: Group): Poly { (g as bv5) as Poly }

  function PolyFrom(c: Poly, v: seq<Group>): Poly
    decreases |v|
  {
    if v == [] then c else PolyFrom(Step(c, Bv(v[0])), v[1..])
  }

  function PolyMod(v: seq<Group>): Poly { Xor(PolyFrom(1, v), 1) }

  method CashPolyMod(v: seq<Group>) returns (r: Poly)
    ensures r == PolyMod(v)
  {
    var c: Poly := 1;
    var i := 0;
    while i < |v|
      invariant 0 <= i <= |v| && PolyFrom(c, v[i..]) == PolyFrom(1, v)
    {
      assert v[i..][1..] == v[i + 1..];
      c := Shifted(c, Bv(v[i]));
      i := i + 1;
    }
    r := c ^ 1;
  }

  /** The body of the loop: shift the group in, then feed back what fell out. */
  method Shifted(c: Poly, d: Poly) returns (r: Poly)
    ensures r == Step(c, d)
  {
    hide Xor, Shl, Top, Tap;
    var c0 := Top(c);
    r := Xor(Shl(c), d);
    r := Fed(r, c0, 0x01, 0x98_f2bc_8e61);
    r := Fed(r, c0, 0x02, 0x79_b76d_99e2);
    r := Fed(r, c0, 0x04, 0xf3_3e5f_b3c4);
    r := Fed(r, c0, 0x08, 0xae_2eab_e2a8);
    r := Fed(r, c0, 0x10, 0x1e_4f43_e470);
  }

  method Fed(c: Poly, c0: Poly, bit: Poly, word: Poly) returns (r: Poly)
    ensures r == Xor(c, Tap(c0, bit, word))
  {
    hide Xor;
    r := c;
    if c0 & bit != 0 { r := Xor(r, word); } else { XorNone(c); }
  }

  // ---- it is linear ---------------------------------------------------------------

  lemma XorAssoc(a: Poly, b: Poly, c: Poly)
    ensures Xor(Xor(a, b), c) == Xor(a, Xor(b, c)) && Xor(a, b) == Xor(b, a)
  {
    assert (a ^ b) ^ c == a ^ (b ^ c);
  }

  lemma XorSwap(p: Poly, q: Poly, r: Poly, s: Poly)
    ensures Xor(Xor(p, q), Xor(r, s)) == Xor(Xor(p, r), Xor(q, s))
  {
    hide Xor;
    XorAssoc(p, q, Xor(r, s));
    XorAssoc(q, r, s);
    XorAssoc(r, q, s);
    XorAssoc(p, r, Xor(q, s));
  }

  lemma XorNone(a: Poly)
    ensures Xor(a, 0) == a && Xor(0, a) == a
  {
  }

  lemma XorSelf(a: Poly)
    ensures Xor(a, a) == 0
  {
  }

  lemma XorBack(a: Poly, b: Poly)
    ensures Xor(Xor(a, b), b) == a
  {
    hide Xor;
    XorAssoc(a, b, b);
    XorSelf(b);
    XorNone(a);
  }

  lemma XorZero(a: Poly, b: Poly)
    ensures Xor(a, 0) == a && Xor(0, a) == a && Xor(a, a) == 0
    ensures Xor(a, b) == 0 <==> a == b
    ensures Xor(Xor(a, b), b) == a
  {
    hide Xor;
    XorNone(a);
    XorNone(b);
    XorSelf(a);
    XorBack(a, b);
  }

  lemma TapLinear(a: Poly, b: Poly, bit: Poly, word: Poly)
    requires OneBit(bit)
    ensures Tap(Xor(a, b), bit, word) == Xor(Tap(a, bit, word), Tap(b, bit, word))
  {
    hide Xor, OneBit;
    BitLinear(a, b, bit);
    XorZero(word, 0);
    XorNone(0);
  }

  predicate OneBit(bit: Poly) { bit == 1 || bit == 2 || bit == 4 || bit == 8 || bit == 16 }

  lemma BitLinear(a: Poly, b: Poly, bit: Poly)
    requires OneBit(bit)
    ensures Xor(a, b) & bit != 0 <==> (a & bit != 0) != (b & bit != 0)
  {
  }

  lemma ShiftLinear(a: Poly, b: Poly)
    ensures Shl(Xor(a, b)) == Xor(Shl(a), Shl(b)) && Top(Xor(a, b)) == Xor(Top(a), Top(b))
  {
  }

  /** The checksum step is linear over GF(2) in state and input together. */
  lemma StepLinear(a: Poly, b: Poly, d: Poly, e: Poly)
    ensures Step(Xor(a, b), Xor(d, e)) == Xor(Step(a, d), Step(b, e))
  {
    hide Xor, Shl, Top, Tap;
    ShiftLinear(a, b);
    var x, y := Top(a), Top(b);
    TapLinear(x, y, 0x01, 0x98_f2bc_8e61);
    TapLinear(x, y, 0x02, 0x79_b76d_99e2);
    TapLinear(x, y, 0x04, 0xf3_3e5f_b3c4);
    TapLinear(x, y, 0x08, 0xae_2eab_e2a8);
    TapLinear(x, y, 0x10, 0x1e_4f43_e470);
    var p, q := Shl(a), Shl(b);
    XorSwap(p, q, d, e);
    p, q := Xor(p, d), Xor(q, e);
    XorSwap(p, q, Tap(x, 0x01, 0x98_f2bc_8e61), Tap(y, 0x01, 0x98_f2bc_8e61));
    p, q := Xor(p, Tap(x, 0x01, 0x98_f2bc_8e61)), Xor(q, Tap(y, 0x01, 0x98_f2bc_8e61));
    XorSwap(p, q, Tap(x, 0x02, 0x79_b76d_99e2), Tap(y, 0x02, 0x79_b76d_99e2));
    p, q := Xor(p, Tap(x, 0x02, 0x79_b76d_99e2)), Xor(q, Tap(y, 0x02, 0x79_b76d_99e2));
    XorSwap(p, q, Tap(x, 0x04, 0xf3_3e5f_b3c4), Tap(y, 0x04, 0xf3_3e5f_b3c4));
    p, q := Xor(p, Tap(x, 0x04, 0xf3_3e5f_b3c4)), Xor(q, Tap(y, 0x04, 0xf3_3e5f_b3c4));
    XorSwap(p, q, Tap(x, 0x08, 0xae_2eab_e2a8), Tap(y, 0x08, 0xae_2eab_e2a8));
    p, q := Xor(p, Tap(x, 0x08, 0xae_2eab_e2a8)), Xor(q, Tap(y, 0x08, 0xae_2eab_e2a8));
    XorSwap(p, q, Tap(x, 0x10, 0x1e_4f43_e470), Tap(y, 0x10, 0x1e_4f43_e470));
  }

  /** Its kernel is zero: the feedback words are independent in their low five bits. */
  lemma StepKernel(a: Poly)
    requires Step(a, 0) == 0
    ensures a == 0
  {
  }

  lemma StepInjective(a: Poly, b: Poly, d: Poly)
    requires Step(a, d) == Step(b, d)
    ensures a == b
  {
    hide Step, Xor;
    StepLinear(a, b, d, d);
    XorZero(d, d);
    XorZero(Step(a, d), Step(b, d));
    StepKernel(Xor(a, b));
    XorZero(a, b);
  }

  lemma {:induction false} PolyConcat(c: Poly, v: seq<Group>, w: seq<Group>)
    ensures PolyFrom(c, v + w) == PolyFrom(PolyFrom(c, v), w)
    decreases |v|
  {
    if v == [] {
      assert v + w == w;
    } else {
      PolyConcat(Step(c, Bv(v[0])), v[1..], w);
      assert (v + w)[1..] == v[1..] + w;
    }
  }

  lemma {:induction false} PolyInjective(a: Poly, b: Poly, v: seq<Group>)
    requires PolyFrom(a, v) == PolyFrom(b, v)
    ensures a == b
    decreases |v|
  {
    if v != [] {
      PolyInjective(Step(a, Bv(v[0])), Step(b, Bv(v[0])), v[1..]);
      StepInjective(a, b, Bv(v[0]));
    }
  }

  function Zeros(n: nat): (z: seq<Group>)
    ensures |z| == n && forall i :: 0 <= i < n ==> z[i] == 0
  {
    seq(n, i => 0)
  }

  /** What a run of groups adds to a state does not depend on the state. */
  lemma {:induction false} PolySplit(a: Poly, b: Poly, v: seq<Group>)
    ensures PolyFrom(Xor(a, b), v) == Xor(PolyFrom(a, Zeros(|v|)), PolyFrom(b, v))
    decreases |v|
  {
    if v != [] {
      var d := Bv(v[0]);
      StepLinear(a, b, 0, d);
      XorZero(d, d);
      PolySplit(Step(a, 0), Step(b, d), v[1..]);
      assert Zeros(|v|)[1..] == Zeros(|v| - 1);
    }
  }

  // ---- eight groups are forty bits ---------------------------------------------------

  function Low(x: Poly): Group { ((x & 0x1f) as bv5) as int }

  function Cut35(n: Poly): Poly { n >> 35 }
  function Cut30(n: Poly): Poly { n >> 30 }
  function Cut25(n: Poly): Poly { n >> 25 }
  function Cut20(n: Poly): Poly { n >> 20 }
  function Cut15(n: Poly): Poly { n >> 15 }
  function Cut10(n: Poly): Poly { n >> 10 }
  function Shr(n: Poly): Poly { n >> 5 }

  /** A checksum less its last `7 - i` groups: `n >> (5 * (7 - i))`. */
  function Head(n: Poly, i: nat): Poly {
    if i == 0 then Cut35(n) else if i == 1 then Cut30(n) else if i == 2 then Cut25(n) else if i == 3 then Cut20(n)
    else if i == 4 then Cut15(n) else if i == 5 then Cut10(n) else if i == 6 then Shr(n) else n
  }

  /** The eight groups the checksum is written in. */
  function CheckGroups(n: Poly): (g: seq<Group>)
    ensures |g| == 8 && forall i :: 0 <= i < 8 ==> g[i] == Low(Head(n, i))
  {
    seq(8, i requires 0 <= i < 8 => Low(Head(n, i)))
  }

  /** Room for one more group, and a state of one group only. */
  predicate Roomy(c: Poly) { c < 0x8_0000_0000 }

  predicate Tiny(d: Poly) { d < 32 }

  function Last(x: Poly): Poly { x & 0x1f }

  lemma RoomyTop(c: Poly)
    requires Roomy(c)
    ensures Top(c) == 0
  {
  }

  /** A group that meets no overflow is simply shifted in. */
  lemma StepSmall(c: Poly, d: Poly)
    requires Roomy(c)
    ensures Step(c, d) == Xor(Shl(c), d)
  {
    hide Step, Xor, Shl, Top, Roomy;
    RoomyTop(c);
    NoFeedback(c, d);
  }

  lemma NoFeedback(c: Poly, d: Poly)
    requires Top(c) == 0
    ensures Step(c, d) == Xor(Shl(c), d)
  {
    hide Xor, Shl, Top, Tap;
    TapOfZero(0x01, 0x98_f2bc_8e61);
    TapOfZero(0x02, 0x79_b76d_99e2);
    TapOfZero(0x04, 0xf3_3e5f_b3c4);
    TapOfZero(0x08, 0xae_2eab_e2a8);
    TapOfZero(0x10, 0x1e_4f43_e470);
    XorZero(Xor(Shl(c), d), 0);
  }

  lemma TapOfZero(bit: Poly, word: Poly)
    ensures Tap(0, bit, word) == 0
  {
  }

  lemma LowRoundTrip(x: Poly)
    ensures Bv(Low(x)) == Last(x)
  {
  }

  lemma GroupRoundTrip(g: Group)
    ensures Tiny(Bv(g)) && Low(Bv(g)) == g
  {
    var b: bv5 := g as bv5;
    assert ((b as Poly) & 0x1f) as bv5 == b;
    assert b as int == g;
  }

  /** `next` is `c` with one more group, and nothing falls out on the way. */
  ghost predicate Linked(c: Poly, next: Poly) {
    Roomy(c) && next == Xor(Shl(c), Last(next))
  }

  lemma LinkedStep(c: Poly, next: Poly)
    requires Linked(c, next)
    ensures Step(c, Bv(Low(next))) == next
  {
    hide Step, Bv, Low, Xor, Shl, Last, Roomy;
    LowRoundTrip(next);
    StepSmall(c, Last(next));
  }

  function Lows(p: seq<Poly>): (g: seq<Group>)
    ensures |g| == |p| && forall i :: 0 <= i < |p| ==> g[i] == Low(p[i])
  {
    seq(|p|, i requires 0 <= i < |p| => Low(p[i]))
  }

  lemma {:induction false} AbsorbAll(p: seq<Poly>)
    requires p != [] && forall k :: 0 <= k < |p| - 1 ==> Linked(p[k], p[k + 1])
    ensures PolyFrom(p[0], Lows(p[1..])) == p[|p| - 1]
    decreases |p|
  {
    hide Linked, Step, Bv, Low;
    if |p| > 1 {
      LinkedStep(p[0], p[1]);
      AbsorbAll(p[1..]);
      assert Lows(p[1..])[0] == Low(p[1]) && Lows(p[1..])[1..] == Lows(p[1..][1..]);
    }
  }

  lemma HeadsLinked(n: Poly, i: nat)
    requires i < 8
    ensures i == 0 ==> Linked(0, Head(n, 0))
    ensures i > 0 ==> Linked(Head(n, i - 1), Head(n, i))
  {
    hide Linked, Head;
    if i == 0 {
      HeadFirst(n);
    } else {
      HeadShift(n, i - 1);
      ShiftLinked(Head(n, i));
    }
  }

  lemma HeadShift(n: Poly, i: nat)
    requires i < 7
    ensures Head(n, i) == Shr(Head(n, i + 1))
  {
    hide *;
    Heads(n);
    match i {
      case 0 => Shift35(n);
      case 1 => Shift30(n);
      case 2 => Shift25(n);
      case 3 => Shift20(n);
      case 4 => Shift15(n);
      case 5 => Shift10(n);
      case _ =>
    }
  }

  lemma Heads(n: Poly)
    ensures Head(n, 0) == Cut35(n) && Head(n, 1) == Cut30(n) && Head(n, 2) == Cut25(n) && Head(n, 3) == Cut20(n)
    ensures Head(n, 4) == Cut15(n) && Head(n, 5) == Cut10(n) && Head(n, 6) == Shr(n) && Head(n, 7) == n
  {
    hide Cut35, Cut30, Cut25, Cut20, Cut15, Cut10, Shr;
  }

  lemma Shift35(n: Poly) ensures Cut35(n) == Shr(Cut30(n)) {}
  lemma Shift30(n: Poly) ensures Cut30(n) == Shr(Cut25(n)) {}
  lemma Shift25(n: Poly) ensures Cut25(n) == Shr(Cut20(n)) {}
  lemma Shift20(n: Poly) ensures Cut20(n) == Shr(Cut15(n)) {}
  lemma Shift15(n: Poly) ensures Cut15(n) == Shr(Cut10(n)) {}
  lemma Shift10(n: Poly) ensures Cut10(n) == Shr(Shr(n)) {}

  lemma ShiftLinked(x: Poly)
    ensures Linked(Shr(x), x)
  {
  }

  lemma HeadFirst(n: Poly)
    ensures Linked(0, Head(n, 0))
  {
  }

  /** Fed to an empty state, the groups of a checksum give it back. */
  lemma Absorb(n: Poly)
    ensures PolyFrom(0, CheckGroups(n)) == n
  {
    hide Linked, Low, Head, PolyFrom;
    var p := seq(9, k requires 0 <= k < 9 => if k == 0 then 0 else Head(n, k - 1));
    forall k | 0 <= k < 8
      ensures Linked(p[k], p[k + 1])
    {
      HeadsLinked(n, k);
    }
    AbsorbAll(p);
    assert Lows(p[1..]) == CheckGroups(n);
    HeadLast(n);
  }

  lemma HeadLast(n: Poly)
    ensures Head(n, 7) == n
  {
  }

  function Limit(k: nat): Poly {
    if k == 0 then 1 else if k == 1 then 0x20 else if k == 2 then 0x400 else if k == 3 then 0x8000
    else if k == 4 then 0x10_0000 else if k == 5 then 0x200_0000 else if k == 6 then 0x4000_0000 else 0x8_0000_0000
  }

  lemma LimitStep(k: nat, c: Poly, d: Poly)
    requires k < 7 && Within(c, k) && Tiny(d)
    ensures Within(Xor(Shl(c), d), k + 1) && Roomy(c)
  {
  }

  predicate Within(c: Poly, k: nat) { c < Limit(k) }

  lemma {:induction false} PolyLast(c: Poly, v: seq<Group>, g: Group)
    ensures PolyFrom(c, v + [g]) == Step(PolyFrom(c, v), Bv(g))
  {
    PolyConcat(c, v, [g]);
    assert [g][1..] == [];
  }

  /** Up to seven groups never overflow. */
  lemma {:induction false} AbsorbedBound(v: seq<Group>)
    requires |v| <= 7
    ensures Within(PolyFrom(0, v), |v|)
    decreases |v|
  {
    if v == [] {
      assert Within(0, 0);
    } else {
      hide Step, Bv, Xor, Shl, Tiny, Roomy, Within, PolyFrom;
      var n := |v| - 1;
      AbsorbedBound(v[..n]);
      GroupRoundTrip(v[n]);
      PolyLast(0, v[..n], v[n]);
      assert v == v[..n] + [v[n]];
      LimitStep(n, PolyFrom(0, v[..n]), Bv(v[n]));
      StepSmall(PolyFrom(0, v[..n]), Bv(v[n]));
    }
  }

  lemma SplitLast(a: Poly, d: Poly, b: Poly, e: Poly)
    requires Roomy(a) && Roomy(b) && Tiny(d) && Tiny(e) && Xor(Shl(a), d) == Xor(Shl(b), e)
    ensures a == b && d == e
  {
  }

  lemma LimitTop(k: nat, c: Poly)
    requires Within(c, k)
    ensures Roomy(c)
  {
  }

  lemma {:induction false} AbsorbInjective(v: seq<Group>, w: seq<Group>)
    requires |v| == |w| <= 8 && PolyFrom(0, v) == PolyFrom(0, w)
    ensures v == w
    decreases |v|
  {
    hide Step, PolyFrom, Bv, Xor, Shl, Tiny, Roomy, Within;
    if v != [] {
      var n := |v| - 1;
      var a, b := PolyFrom(0, v[..n]), PolyFrom(0, w[..n]);
      AbsorbedBound(v[..n]);
      AbsorbedBound(w[..n]);
      LimitTop(n, a);
      LimitTop(n, b);
      GroupRoundTrip(v[n]);
      GroupRoundTrip(w[n]);
      assert v == v[..n] + [v[n]] && w == w[..n] + [w[n]];
      PolyLast(0, v[..n], v[n]);
      PolyLast(0, w[..n], w[n]);
      StepSmall(a, Bv(v[n]));
      StepSmall(b, Bv(w[n]));
      SplitLast(a, Bv(v[n]), b, Bv(w[n]));
      AbsorbInjective(v[..n], w[..n]);
    }
  }

  /** Eight groups close a message exactly when they are the checksum computed over it
      with eight zeros in their place. */
  lemma ChecksumCloses(v: seq<Group>, g: seq<Group>)
    requires |g| == 8
    ensures PolyMod(v + g) == 0 <==> g == CheckGroups(PolyMod(v + Zeros(8)))
  {
    var c, n := PolyFrom(1, v), PolyMod(v + Zeros(8));
    PolyConcat(1, v, g);
    PolyConcat(1, v, Zeros(8));
    XorZero(c, 0);
    PolySplit(c, 0, g);
    var x, y := PolyFrom(c, Zeros(8)), PolyFrom(0, g);
    assert PolyMod(v + g) == Xor(n, y) by {
      hide Xor;
      XorAssoc(x, y, 1);
      XorAssoc(x, 1, y);
      XorAssoc(y, 1, 1);
    }
    XorZero(n, y);
    Absorb(n);
    if y == n { AbsorbInjective(g, CheckGroups(n)); }
  }

  /** One wrong group anywhere, in the prefix, the payload or the checksum itself, is
      always noticed. */
  lemma SingleErrorNoticed(v: seq<Group>, i: nat, g: Group)
    requires i < |v| && g != v[i] && PolyMod(v) == 0
    ensures PolyMod(v[i := g]) != 0
  {
    var w := v[i := g];
    var c := PolyFrom(1, v[..i]);
    assert v == v[..i] + ([v[i]] + v[i + 1..]) && w == v[..i] + ([g] + v[i + 1..]);
    PolyConcat(1, v[..i], [v[i]] + v[i + 1..]);
    PolyConcat(1, v[..i], [g] + v[i + 1..]);
    PolyConcat(c, [v[i]], v[i + 1..]);
    PolyConcat(c, [g], v[i + 1..]);
    XorZero(PolyFrom(1, v), 1);
    XorZero(PolyFrom(1, w), 1);
    if PolyMod(w) == 0 {
      PolyInjective(PolyFrom(c, [v[i]]), PolyFrom(c, [g]), v[i + 1..]);
      InputInjective(c, v[i], g);
    }
  }

  lemma InputInjective(c: Poly, g: Group, h: Group)
    requires PolyFrom(c, [g]) == PolyFrom(c, [h])
    ensures g == h
  {
    hide Step, Xor, Bv;
    var d, e := Bv(g), Bv(h);
    assert [g][1..] == [] && [h][1..] == [];
    StepLinear(c, c, d, e);
    XorZero(c, c);
    XorZero(Step(c, d), Step(c, e));
    XorZero(d, e);
    assert Step(0, Xor(d, e)) == 0;
    NoFeedbackAtZero(Xor(d, e));
    GroupRoundTrip(g);
    GroupRoundTrip(h);
  }

  lemma ShiftZero()
    ensures Top(0) == 0 && Shl(0) == 0
  {
  }

  lemma NoFeedbackAtZero(d: Poly)
    ensures Step(0, d) == d
  {
    hide Step, Xor, Shl, Top;
    ShiftZero();
    NoFeedback(0, d);
    XorZero(d, d);
  }
}
