/** Bytes as runs of bits, most significant first: the writer `Bit` and the reader inside
    `MatchFilter` (src/btclight.cpp). */
module Bits {
  import opened Powers
  import opened Regroup

  function Zeros(n: nat): (z: seq<nat>)
    ensures |z| == n && forall i :: 0 <= i < n ==> z[i] == 0
  {
    seq(n, _ => 0)
  }

  function Unpack(f: seq<nat>): (s: seq<nat>)
    ensures |s| == 8 * |f| && Below(2, s)
  {
    if f == [] then [] else Digits(2, 8, f[0]) + Unpack(f[1..])
  }

  /** Eight bits to a byte, the last byte filled with zeros. */
  function Pack(s: seq<nat>): (f: seq<nat>)
    ensures |f| == (|s| + 7) / 8
  {
    if s == [] then []
    else if |s| <= 8 then [Val(2, s + Zeros(8 - |s|))]
    else [Val(2, s[..8])] + Pack(s[8..])
  }

  // ---- values of digits --------------------------------------------------------------------

  lemma {:induction false} ValConcat(a: seq<nat>, b: seq<nat>)
    ensures Val(2, a + b) == Times(Val(2, a), Pow2(|b|)) + Val(2, b)
    decreases |b|
  {
    if b == [] {
      assert a + b == a;
    } else {
      var k := |b| - 1;
      assert a + b == (a + b[..k]) + [b[k]];
      ValPush(2, a + b[..k], b[k]);
      ValConcat(a, b[..k]);
      ConcatArithmetic(Val(2, a), Pow2(k), Val(2, b[..k]), b[k]);
    }
  }

  lemma ConcatArithmetic(v: nat, p: nat, w: nat, x: nat)
    ensures Times(Times(v, p) + w, 2) + x == Times(v, 2 * p) + (Times(w, 2) + x)
  {
    assert v * (2 * p) == 2 * (v * p);
  }

  lemma {:induction false} ValZeros(n: nat)
    ensures Val(2, Zeros(n)) == 0
  {
    if n > 0 {
      ValZeros(n - 1);
      assert Zeros(n)[..n - 1] == Zeros(n - 1);
    }
  }

  lemma Two()
    ensures Pow2(1) == 2 && Pow2(8) == 256
  {
    Pow2Small();
  }

  lemma ByteVal(s: seq<nat>)
    requires |s| == 8 && Below(2, s)
    ensures Val(2, s) < 256 && Digits(2, 8, Val(2, s)) == s
  {
    Two();
    ValBound(1, s);
    DigitsOfVal(2, s);
  }

  lemma ByteDigits(b: nat)
    requires b < 256
    ensures Val(2, Digits(2, 8, b)) == b
  {
    Two();
    ValOfDigits(1, 8, b);
  }

  // ---- there and back ------------------------------------------------------------------------

  /** The bits of the bytes are those packed, filled up with zeros. */
  ghost predicate Unpacks(s: seq<nat>) {
    Below(256, Pack(s)) && Unpack(Pack(s)) == s + Zeros(8 * |Pack(s)| - |s|)
  }

  lemma {:induction false} UnpackPack(s: seq<nat>)
    requires Below(2, s)
    ensures Below(256, Pack(s)) && Unpack(Pack(s)) == s + Zeros(8 * |Pack(s)| - |s|)
    decreases |s|
  {
    hide Digits, Val, Pack, Unpack;
    if |s| <= 8 {
      UnpackShort(s);
    } else {
      UnpackPack(s[8..]);
      UnpackLong(s);
    }
  }

  lemma UnpackShort(s: seq<nat>)
    requires Below(2, s) && |s| <= 8
    ensures Unpacks(s)
  {
    hide Digits, Val;
    if s != [] {
      ByteVal(s + Zeros(8 - |s|));
      var f := Pack(s);
      assert f[1..] == [] && Unpack(f) == Digits(2, 8, f[0]) + [];
    }
  }

  lemma UnpackLong(s: seq<nat>)
    requires Below(2, s) && |s| > 8 && Unpacks(s[8..])
    ensures Unpacks(s)
  {
    hide Digits, Val, Pack, Unpack;
    ByteVal(s[..8]);
    UnpackFirst(s);
    assert s == s[..8] + s[8..];
  }

  lemma UnpackFirst(s: seq<nat>)
    requires |s| > 8
    ensures Pack(s) == [Val(2, s[..8])] + Pack(s[8..])
    ensures Unpack(Pack(s)) == Digits(2, 8, Val(2, s[..8])) + Unpack(Pack(s[8..]))
  {
    hide Digits, Val, Pack;
    PackTail(s);
    assert Pack(s)[1..] == Pack(s[8..]);
  }

  lemma {:induction false} UnpackInjective(f: seq<nat>, g: seq<nat>)
    requires Below(256, f) && Below(256, g) && Unpack(f) == Unpack(g)
    ensures f == g
    decreases |f|
  {
    hide Digits, Val;
    if f != [] {
      assert |g| == |f|;
      assert Unpack(f)[..8] == Digits(2, 8, f[0]) && Unpack(g)[..8] == Digits(2, 8, g[0]);
      ByteDigits(f[0]);
      ByteDigits(g[0]);
      assert Unpack(f)[8..] == Unpack(f[1..]) && Unpack(g)[8..] == Unpack(g[1..]);
      UnpackInjective(f[1..], g[1..]);
    }
  }

  /** Bytes whose bits end in fewer than eight zeros are the packing of what comes before. */
  lemma PackUnpack(f: seq<nat>, s: seq<nat>, z: nat)
    requires Below(256, f) && Below(2, s) && z < 8 && Unpack(f) == s + Zeros(z)
    ensures Pack(s) == f
  {
    hide Unpack, Pack, Below;
    UnpackPack(s);
    assert 8 * |f| == |s| + z;
    Eighths(|s|, |f|);
    assert 8 * |Pack(s)| - |s| == z;
    UnpackInjective(Pack(s), f);
  }

  lemma Eighths(m: nat, n: nat)
    requires m <= 8 * n < m + 8
    ensures (m + 7) / 8 == n
  {
  }

  lemma ZeroTail(u: seq<nat>, m: nat)
    requires m <= |u| && forall i :: m <= i < |u| ==> u[i] == 0
    ensures u == u[..m] + Zeros(|u| - m)
  {
  }

  lemma {:induction false} UnpackConcat(f: seq<nat>, g: seq<nat>)
    ensures Unpack(f + g) == Unpack(f) + Unpack(g)
    decreases |f|
  {
    if f == [] {
      assert f + g == g;
    } else {
      assert (f + g)[1..] == f[1..] + g;
      UnpackConcat(f[1..], g);
    }
  }

  // ---- one bit read ---------------------------------------------------------------------------

  lemma {:induction false} BinaryAt(k: nat, v: nat, i: nat)
    requires i < k
    ensures Digits(2, k, v)[i] == Over(v, Pow2(k - 1 - i)) % 2
    decreases k
  {
    if i < k - 1 {
      BinaryAt(k - 1, Over(v, 2), i);
      DivDiv(v, 2, Pow2(k - 2 - i));
    } else {
      assert Pow2(0) == 1 && Over(v, 1) == v;
    }
  }

  function BitAt(f: seq<nat>, pos: nat): nat
    requires pos < 8 * |f|
  {
    Over(f[pos / 8], Pow2(7 - pos % 8)) % 2
  }

  lemma {:induction false} ReadsBit(f: seq<nat>, pos: nat)
    requires pos < 8 * |f|
    ensures BitAt(f, pos) == Unpack(f)[pos]
    decreases |f|
  {
    hide Digits, Over;
    if pos < 8 {
      BinaryAt(8, f[0], pos);
    } else {
      ReadsBit(f[1..], pos - 8);
      assert f[1..][(pos - 8) / 8] == f[pos / 8];
    }
  }

  // ---- one bit written --------------------------------------------------------------------------

  /** One more bit: a new byte when the last is full, a bit of the last byte otherwise. */
  lemma {:induction false} PackPush(s: seq<nat>, v: nat)
    requires v < 2
    ensures
      var f, k := Pack(s), |s| / 8;
      Pack(s + [v]) == if |s| % 8 == 0 then f + [Times(v, 128)] else f[k := f[k] + Scaled(v, 7 - |s| % 8)]
    decreases |s|
  {
    hide Val, Scaled;
    if s == [] {
      PushFirst(v);
      assert s + [v] == [v];
    } else if |s| < 8 {
      PushByte(s, v);
    } else if |s| == 8 {
      PushFirst(v);
      assert (s + [v])[..8] == s && (s + [v])[8..] == [v] && s + Zeros(0) == s;
    } else {
      PackPush(s[8..], v);
      FirstByte(s, v);
      var b, g, k := Val(2, s[..8]), Pack(s[8..]), |s| / 8;
      assert |s[8..]| / 8 == k - 1 && |s[8..]| % 8 == |s| % 8;
      if |s| % 8 != 0 {
        ShiftUpdate(b, g, k, Scaled(v, 7 - |s| % 8));
      }
    }
  }

  lemma FirstByte(s: seq<nat>, v: nat)
    requires |s| > 8
    ensures Pack(s) == [Val(2, s[..8])] + Pack(s[8..])
    ensures Pack(s + [v]) == [Val(2, s[..8])] + Pack(s[8..] + [v])
  {
    hide Val, Pack;
    PackTail(s);
    PackTail(s + [v]);
    assert (s + [v])[..8] == s[..8] && (s + [v])[8..] == s[8..] + [v];
  }

  lemma PackTail(s: seq<nat>)
    requires |s| > 8
    ensures Pack(s) == [Val(2, s[..8])] + Pack(s[8..])
  {
    hide Val;
  }

  lemma ShiftUpdate(b: nat, g: seq<nat>, k: nat, x: nat)
    requires 0 < k <= |g|
    ensures ([b] + g)[k := ([b] + g)[k] + x] == [b] + g[k - 1 := g[k - 1] + x]
  {
  }

  /** `v << n`. */
  function Scaled(v: nat, n: nat): nat { Times(v, Pow2(n)) }

  lemma ValShift(s: seq<nat>, n: nat)
    ensures Val(2, s + Zeros(n)) == Scaled(Val(2, s), n)
  {
    ValConcat(s, Zeros(n));
    ValZeros(n);
  }

  lemma ScaledPush(w: nat, v: nat, n: nat)
    ensures Scaled(Times(w, 2) + v, n) == Scaled(w, n + 1) + Scaled(v, n)
  {
    PushArithmetic(w, v, Pow2(n));
  }

  lemma PushArithmetic(w: nat, v: nat, p: nat)
    ensures Times(Times(w, 2) + v, p) == Times(w, 2 * p) + Times(v, p)
  {
    assert (w * 2 + v) * p == w * (2 * p) + v * p;
  }

  lemma PushByte(s: seq<nat>, v: nat)
    requires |s| < 8
    ensures Val(2, s + [v] + Zeros(7 - |s|)) == Val(2, s + Zeros(8 - |s|)) + Scaled(v, 7 - |s|)
  {
    hide *;
    var n := 7 - |s|;
    ValShift(s + [v], n);
    ValShift(s, n + 1);
    ValPush(2, s, v);
    ScaledPush(Val(2, s), v, n);
  }

  lemma PushFirst(v: nat)
    requires v < 2
    ensures Pack([v]) == [Times(v, 128)]
  {
    hide Val, Times;
    PushByte([], v);
    assert [] + [v] + Zeros(7) == [v] + Zeros(7) && [] + Zeros(8) == Zeros(8);
    ValZeros(8);
    Pow2Small();
    assert Pow2(7) == 128;
  }
}
