/** The compact form of a proof-of-work target (src/btclight.cpp, `Target` and
    `Bits`), the base-256 floating-point number it denotes, and the reference form
    that `CBigNum` computes through OpenSSL's MPI bytes (src/bignum.h).
    `Integer` is unbounded in the source too; `unsigned int` is `U32`, shifts by
    whole bytes are products and quotients with `Pow256`, and `|` of disjoint bits
    is written as a sum. */
module CompactTarget {
  import opened Powers

  type U32 = x: int | 0 <= x < 0x1_0000_0000

  // ---- the code --------------------------------------------------------------

  function SizeOf(bits: U32): nat { bits / 0x100_0000 }

  function WordOf(bits: U32): nat { bits % 0x80_0000 }

  predicate Negative(bits: U32) { bits / 0x80_0000 % 2 == 1 }

  predicate Overflows(size: nat, word: nat) {
    size > 34 || (word > 255 && size > 33) || (word > 65535 && size > 32)
  }

  /** A word with its binary point `size` bytes from the top. */
  function Shifted(size: nat, word: nat): nat {
    if size <= 3 then Over(word, Pow256(3 - size)) else Times(word, Pow256(size - 3))
  }

  function Target(bits: U32): nat {
    var size, word := SizeOf(bits), WordOf(bits);
    if word == 0 || Negative(bits) || Overflows(size, word) then 0 else Shifted(size, word)
  }

  /** Position of the highest set bit (`boost::multiprecision::msb`). */
  function Msb(n: nat): nat
    requires n > 0
  {
    if n == 1 then 0 else 1 + Msb(n / 2)
  }

  function ByteSize(n: nat): nat
    requires n > 0
  {
    (Msb(n) + 8) / 8
  }

  /** `word | (size << 24)` in an unsigned int. */
  function Packed(size: nat, word: nat): U32 {
    (word + size * 0x100_0000) % 0x1_0000_0000
  }

  function Bits(n: int): U32 {
    if n <= 0 then 0
    else
      var size := ByteSize(n);
      var word := if size <= 3 then Times(n, Pow256(3 - size)) else Over(n, Pow256(size - 3));
      if word / 0x80_0000 % 2 == 1 then Packed(size + 1, word / 256) else Packed(size, word)
  }

  // ---- what it denotes -------------------------------------------------------

  /** How many low bytes go before a number fits in 23 bits, and what is left. */
  function Scale(n: nat): nat {
    if n < 0x80_0000 then 0 else 1 + Scale(n / 256)
  }

  function Mantissa(n: nat): (m: nat)
    ensures m < 0x80_0000
    ensures n >= 0x8000 ==> m >= 0x8000
  {
    if n < 0x80_0000 then n else Mantissa(n / 256)
  }

  /** A number with everything below its 23-bit mantissa cleared. */
  function Trunc(n: nat): nat {
    Times(Mantissa(n), Pow256(Scale(n)))
  }

  /** Size and word of the one normalised compact form of a positive number. */
  function FloatSize(n: nat): nat {
    if n < 0x80 then 1 else if n < 0x8000 then 2 else 3 + Scale(n)
  }

  function FloatWord(n: nat): (w: nat)
    ensures w < 0x80_0000
    ensures n > 0 ==> w >= 0x8000
  {
    if n < 0x80 then n * 0x1_0000 else if n < 0x8000 then n * 0x100 else Mantissa(n)
  }

  // ---- the two agree ---------------------------------------------------------

  lemma {:induction false} MsbBounds(n: nat)
    requires n > 0
    ensures Pow2(Msb(n)) <= n < Pow2(Msb(n) + 1)
  {
    if n > 1 {
      MsbBounds(n / 2);
    }
  }

  lemma ByteSizeBounds(n: nat)
    requires n > 0
    ensures ByteSize(n) >= 1 && Pow256(ByteSize(n) - 1) <= n < Pow256(ByteSize(n))
  {
    var s := ByteSize(n);
    MsbBounds(n);
    Pow2Mono(8 * (s - 1), Msb(n));
    Pow2Mono(Msb(n) + 1, 8 * s);
    Pow2Bytes(s - 1);
    Pow2Bytes(s);
  }

  /** The scale is the only exponent that leaves a mantissa of 16 to 23 bits. */
  lemma {:induction false} ScaleIs(n: nat, k: nat)
    requires 0x8000 * Pow256(k) <= n < 0x80_0000 * Pow256(k)
    ensures Scale(n) == k && Mantissa(n) == n / Pow256(k)
    decreases k
  {
    if k > 0 {
      var p := Pow256(k - 1);
      assert n >= 0x80_0000 * p;
      ScaleIs(n / 256, k - 1);
      DivDiv(n, 256, p);
    }
  }

  lemma {:induction false} ScaleBounds(n: nat)
    ensures Mantissa(n) == n / Pow256(Scale(n))
    ensures Scale(n) > 0 ==> 0x8000 * Pow256(Scale(n)) <= n
    ensures n < 0x80_0000 * Pow256(Scale(n))
  {
    if n >= 0x80_0000 {
      ScaleBounds(n / 256);
      DivDiv(n, 256, Pow256(Scale(n / 256)));
    }
  }

  lemma ByteSizeSmall(n: nat)
    requires 0 < n < 0x1_0000
    ensures ByteSize(n) == if n < 256 then 1 else 2
  {
    ByteSizeBounds(n);
    var s := ByteSize(n);
  }

  lemma ByteSizeLarge(n: nat)
    requires n >= 0x1_0000
    ensures ByteSize(n) >= 3
    ensures 0x1_0000 <= n / Pow256(ByteSize(n) - 3) < 0x100_0000
  {
    ByteSizeBounds(n);
    var s := ByteSize(n);
    if s <= 2 { Pow256Mono(s, 2); }
    var p := Pow256(s - 3);
    assert Pow256(s - 2) == 256 * p;
    assert Pow256(s - 1) == 0x1_0000 * p;
    assert Pow256(s) == 0x100_0000 * p;
    DivRange(n, p, 0x1_0000, 0x100_0000);
  }

  /** From 2^16 on, the code's shifted word determines the scale. */
  lemma LargeWord(n: nat, k: nat, m: nat)
    requires m == n / Pow256(k) && 0x1_0000 <= m < 0x100_0000
    ensures m < 0x80_0000 ==> Scale(n) == k && Mantissa(n) == m
    ensures m >= 0x80_0000 ==> Scale(n) == k + 1 && Mantissa(n) == m / 256
  {
    var p := Pow256(k);
    DivBounds(n, p);
    if m < 0x80_0000 {
      MulMono(0x8000, m, p);
      MulMono(m + 1, 0x80_0000, p);
      ScaleIs(n, k);
    } else {
      assert Pow256(k + 1) == 256 * p;
      MulMono(0x80_0000, m, p);
      MulMono(m + 1, 0x100_0000, p);
      ScaleIs(n, k + 1);
      DivDiv(n, p, 256);
    }
  }

  /** `Bits` computes the normalised compact form. */
  lemma BitsIsFloat(n: nat)
    requires n > 0
    ensures Bits(n) == Packed(FloatSize(n), FloatWord(n))
  {
    if n < 0x1_0000 {
      BitsSmall(n);
    } else {
      ByteSizeLarge(n);
      var s := ByteSize(n);
      var m := n / Pow256(s - 3);
      LargeWord(n, s - 3, m);
      BitsLarge(n, m);
    }
  }

  lemma BitsSmall(n: nat)
    requires 0 < n < 0x1_0000
    ensures Bits(n) == Packed(FloatSize(n), FloatWord(n))
  {
    ByteSizeSmall(n);
    assert Pow256(1) == 256 && Pow256(2) == 0x1_0000;
    if n < 256 {
      assert Bits(n) == if n >= 0x80 then Packed(2, n * 0x100) else Packed(1, n * 0x1_0000);
    } else {
      assert Bits(n) == if n >= 0x8000 then Packed(3, n) else Packed(2, n * 0x100);
    }
  }

  lemma BitsLarge(n: nat, m: nat)
    requires n > 0 && ByteSize(n) >= 3 && m == n / Pow256(ByteSize(n) - 3) && m < 0x100_0000
    ensures Bits(n) == if m >= 0x80_0000 then Packed(ByteSize(n) + 1, m / 256) else Packed(ByteSize(n), m)
  {
    hide Packed, ByteSize;
    if ByteSize(n) == 3 {
      assert Pow256(0) == 1;
    }
    assert m / 0x80_0000 == if m >= 0x80_0000 then 1 else 0;
  }

  lemma UnpackPacked(size: nat, word: nat)
    requires size < 256 && word < 0x80_0000
    ensures var b := Packed(size, word); SizeOf(b) == size && WordOf(b) == word && !Negative(b)
  {
    assert Packed(size, word) == word + size * 0x100_0000;
  }

  lemma PackUnpacked(bits: U32)
    requires !Negative(bits)
    ensures bits == Packed(SizeOf(bits), WordOf(bits))
  {
  }

  /** Every compact target is a 256-bit number. */
  lemma TargetBelow256(bits: U32)
    ensures Target(bits) < TWO_256
  {
    var size, word := SizeOf(bits), WordOf(bits);
    if size <= 3 {
      ShiftedDown(size, word);
    } else if !Overflows(size, word) {
      Pow256Top(size - 3);
      ShiftedUp(size, word, Pow256(size - 3));
    }
  }

  lemma ShiftedDown(size: nat, word: nat)
    requires size <= 3
    ensures Shifted(size, word) <= word
  {
    OverAtMost(word, Pow256(3 - size));
  }

  lemma ShiftedUp(size: nat, word: nat, p: nat)
    requires !Overflows(size, word) && word < 0x80_0000
    requires size <= 32 ==> p <= TWO_232
    requires size == 33 ==> p == TWO_240
    requires size == 34 ==> p == TWO_248
    ensures word * p < TWO_256
  {
    if size <= 32 {
      MulMono(word, 0x80_0000, p);
      assert 0x80_0000 * p <= 0x80_0000 * TWO_232;
    }
  }

  /** A 256-bit number never normalises into the forms `Target` refuses. */
  lemma FloatNeverOverflows(n: nat)
    requires 0x8000 <= n < TWO_256
    ensures !Overflows(3 + Scale(n), Mantissa(n))
  {
    ScaleBounds(n);
    var k := Scale(n);
    Pow256Top(k);
    DivBounds(n, Pow256(k));
    ScaleTop(n, k, Mantissa(n), Pow256(k));
  }

  lemma ScaleTop(n: nat, k: nat, m: nat, p: nat)
    requires m * p <= n < TWO_256 && (k > 0 ==> 0x8000 * p <= n)
    requires k >= 31 ==> p >= TWO_248
    requires k == 30 ==> p == TWO_240
    requires m < 0x80_0000
    ensures !Overflows(3 + k, m)
  {
    if k == 30 && m >= 0x1_0000 {
      MulMono(0x1_0000, m, p);
    }
  }

  /** Decoding what `Bits` encodes clears the low bytes and nothing else. */
  lemma TargetOfBits(n: nat)
    requires n < TWO_256
    ensures Target(Bits(n)) == Trunc(n)
  {
    if n == 0 {
      assert Trunc(0) == 0;
    } else {
      BitsIsFloat(n);
      FloatSizeBelow(n);
      UnpackPacked(FloatSize(n), FloatWord(n));
      ShiftedFloat(n);
      if n >= 0x8000 { FloatNeverOverflows(n); }
    }
  }

  lemma FloatSizeBelow(n: nat)
    requires 0 < n < TWO_256
    ensures 1 <= FloatSize(n) <= 34
  {
    if n >= 0x8000 { FloatNeverOverflows(n); }
  }

  lemma ShiftedFloat(n: nat)
    requires n > 0
    ensures Shifted(FloatSize(n), FloatWord(n)) == Trunc(n)
  {
    assert Pow256(0) == 1 && Pow256(1) == 256 && Pow256(2) == 0x1_0000;
    if n < 0x8000 {
      assert Trunc(n) == n;
    }
  }

  /** The encoding never raises a target, and loses less than one part in 2^15. */
  lemma TruncLoss(n: nat)
    ensures Trunc(n) <= n
    ensures n > 0 ==> (n - Trunc(n)) * 0x8000 < n && Trunc(n) > 0
  {
    ScaleBounds(n);
    var p := Pow256(Scale(n));
    DivBounds(n, p);
    if Scale(n) == 0 {
      assert p == 1;
    }
  }

  lemma {:induction false} ScaleMono(m: nat, n: nat)
    requires m <= n
    ensures Scale(m) <= Scale(n)
  {
    if m >= 0x80_0000 {
      ScaleMono(m / 256, n / 256);
    }
  }

  /** Order survives the encoding. */
  lemma TruncMono(m: nat, n: nat)
    requires m <= n
    ensures Trunc(m) <= Trunc(n)
  {
    ScaleMono(m, n);
    ScaleBounds(m);
    ScaleBounds(n);
    var p, q := Pow256(Scale(m)), Pow256(Scale(n));
    if Scale(m) == Scale(n) {
      DivMono(m, n, p);
      MulMono(m / p, n / p, p);
    } else {
      TruncLoss(m);
      Pow256Mono(Scale(m), Scale(n) - 1);
      assert m < 0x8000 * q;
      DivRange(n, q, 0x8000, 0x80_0000);
      MulMono(0x8000, n / q, q);
    }
  }

  lemma TruncKeepsFloat(n: nat)
    ensures Scale(Trunc(n)) == Scale(n) && Mantissa(Trunc(n)) == Mantissa(n)
  {
    ScaleBounds(n);
    var k := Scale(n);
    var p := Pow256(k);
    if k == 0 {
      assert p == 1;
    } else {
      DivRange(n, p, 0x8000, 0x80_0000);
      MulMono(0x8000, Mantissa(n), p);
      MulStrict(Mantissa(n), 0x80_0000, p);
      ScaleIs(Trunc(n), k);
      DivExact(Mantissa(n), p, 0);
    }
  }

  /** Encoding is idempotent through `Target`. */
  lemma BitsIdempotent(n: nat)
    requires n < TWO_256
    ensures Bits(Target(Bits(n))) == Bits(n)
  {
    TargetOfBits(n);
    TruncLoss(n);
    TruncKeepsFloat(n);
    if n > 0 {
      BitsIsFloat(n);
      BitsIsFloat(Trunc(n));
      assert n < 0x80_0000 ==> Trunc(n) == n by { assert Pow256(0) == 1; }
      assert n >= 0x80_0000 ==> Trunc(n) >= 0x80_0000;
    }
  }

  /** The forms `Bits` produces: a 16- to 23-bit word, and nothing below the point. */
  predicate Canonical(bits: U32) {
    var size, word := SizeOf(bits), WordOf(bits);
    && !Negative(bits) && size >= 1 && word >= 0x8000
    && (size == 1 ==> word % 0x1_0000 == 0)
    && (size == 2 ==> word % 0x100 == 0)
  }

  lemma FloatOfShifted(size: nat, word: nat)
    requires size >= 1 && 0x8000 <= word < 0x80_0000
    requires size == 1 ==> word % 0x1_0000 == 0
    requires size == 2 ==> word % 0x100 == 0
    ensures FloatSize(Shifted(size, word)) == size && FloatWord(Shifted(size, word)) == word
  {
    if size >= 3 {
      FloatOfProduct(size, word, Pow256(size - 3));
    } else {
      assert Pow256(1) == 256 && Pow256(2) == 0x1_0000;
    }
  }

  lemma FloatOfProduct(size: nat, word: nat, p: nat)
    requires size >= 3 && p == Pow256(size - 3) && 0x8000 <= word < 0x80_0000
    ensures Shifted(size, word) == Times(word, p)
    ensures FloatSize(Times(word, p)) == size && FloatWord(Times(word, p)) == word
  {
    var n := Times(word, p);
    if size == 3 { assert p == 1; }
    MulMono(0x8000, word, p);
    MulStrict(word, 0x80_0000, p);
    ScaleIs(n, size - 3);
    DivExact(word, p, 0);
  }

  /** A compact target survives decoding and encoding exactly when it is canonical. */
  lemma CanonicalRoundTrip(bits: U32)
    requires Target(bits) > 0
    ensures Bits(Target(bits)) == bits <==> Canonical(bits)
  {
    var n := Target(bits);
    TargetBelow256(bits);
    FloatSizeBelow(n);
    BitsIsFloat(n);
    UnpackPacked(FloatSize(n), FloatWord(n));
    FloatIsCanonical(n);
    if Canonical(bits) {
      FloatOfShifted(SizeOf(bits), WordOf(bits));
      PackUnpacked(bits);
    }
  }

  lemma FloatIsCanonical(n: nat)
    requires 0 < n < TWO_256
    ensures Canonical(Packed(FloatSize(n), FloatWord(n)))
  {
    FloatSizeBelow(n);
    UnpackPacked(FloatSize(n), FloatWord(n));
  }
}
