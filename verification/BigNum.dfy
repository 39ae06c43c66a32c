/** The reference form of the compact encoding: `CBigNum::SetCompact` and
    `CBigNum::GetCompact` (src/bignum.h), which go through the bytes of OpenSSL's
    MPI format, and their agreement with the light client's shifts. */
module BigNum {
  import opened Powers
  import opened CompactTarget

  type Byte = x: int | 0 <= x < 256

  /** Big-endian bytes read as a number. */
  function BytesValue(b: seq<Byte>): nat {
    if b == [] then 0 else BytesValue(b[..|b| - 1]) * 256 + b[|b| - 1]
  }

  /** The shortest big-endian bytes of a number. */
  function Magnitude(n: nat): (b: seq<Byte>)
    ensures n > 0 ==> b != []
  {
    if n == 0 then [] else Magnitude(n / 256) + [n % 256]
  }

  /** The body BN_bn2mpi writes: the magnitude, with a zero byte in front when its
      top bit would otherwise read as a sign. */
  function MpiBytes(n: nat): seq<Byte> {
    var m := Magnitude(n);
    if m != [] && m[0] >= 0x80 then [0] + m else m
  }

  /** What BN_mpi2bn reads: the top bit of the first byte is the sign. */
  function MpiValue(b: seq<Byte>): int {
    if b == [] then 0
    else if b[0] >= 0x80 then -(BytesValue([b[0] - 0x80] + b[1..]) as int)
    else BytesValue(b)
  }

  /** The body BN_bn2mpi writes for any number: the sign goes into the top bit. */
  function SignedMpi(n: int): seq<Byte> {
    if n >= 0 then MpiBytes(n)
    else
      var m := MpiBytes(-n);
      if m == [] then [] else [m[0] + if m[0] < 0x80 then 0x80 else 0] + m[1..]
  }

  /** The number a compact word denotes, of either sign and any size. */
  function CompactValue(bits: U32): int {
    var v := Shifted(SizeOf(bits), WordOf(bits));
    if Negative(bits) then -(v as int) else v
  }

  class CBigNum {
    var bn: int

    constructor ()
      ensures bn == 0
    {
      bn := 0;
    }

    /** The bytes the compact word names, then zeros, read as an MPI body: the
        floating-point number the word denotes, negated by its sign bit. */
    method SetCompact(nCompact: U32)
      modifies this
      ensures bn == CompactValue(nCompact)
    {
      var nSize := nCompact / 0x100_0000;
      var vch: seq<Byte> := seq(nSize, i => 0);
      if nSize >= 1 { vch := vch[0 := nCompact / 0x1_0000 % 256]; }
      if nSize >= 2 { vch := vch[1 := nCompact / 0x100 % 256]; }
      if nSize >= 3 { vch := vch[2 := nCompact % 256]; }
      bn := MpiValue(vch);
      if nSize == 0 {
        assert Pow256(3) == 0x100_0000;
      } else {
        SignOfFirst(nCompact);
        CompactBytes([nCompact / 0x1_0000 % 128] + vch[1..], nCompact);
        assert nCompact / 0x1_0000 % 256 < 0x80 ==> [nCompact / 0x1_0000 % 128] + vch[1..] == vch;
      }
    }

    /** The length and the first three bytes of the MPI body: for a number that is not
        negative the compact form that `Bits` computes with shifts, and for a negative one
        that of its opposite with the sign bit set. */
    method GetCompact() returns (nCompact: U32)
      ensures bn >= 0 ==> nCompact == Bits(bn)
      ensures bn < 0 ==> nCompact == Bits(-bn) + 0x80_0000
    {
      var vch := SignedMpi(bn);
      var nSize := |vch|;
      var word := 0;
      if nSize >= 1 { word := word + vch[0] as int * 0x1_0000; }
      if nSize >= 2 { word := word + vch[1] as int * 0x100; }
      if nSize >= 3 { word := word + vch[2] as int; }
      nCompact := Packed(nSize, word);
      SignedFloat(bn);
    }
  }

  lemma SignedFloat(n: int)
    ensures
      var v := SignedMpi(n);
      Packed(|v|, FirstThree(v)) == if n >= 0 then Bits(n) else Bits(-n) + 0x80_0000
  {
    hide Bits, MpiBytes;
    var m: nat := if n >= 0 then n else -n;
    MpiFloat(m);
    if m > 0 {
      BitsIsFloat(m);
      FirstBit(m);
      SignBit(FloatSize(m), FloatWord(m));
    } else {
      BitsOfZero();
    }
  }

  lemma BitsOfZero()
    ensures Bits(0) == 0
  {
  }

  /** The first byte of a positive body has no sign. */
  lemma FirstBit(m: nat)
    requires m > 0
    ensures MpiBytes(m) != [] && MpiBytes(m)[0] < 0x80
  {
  }

  lemma SignBit(size: nat, word: nat)
    requires word < 0x80_0000
    ensures Packed(size, word + 0x80_0000) == Packed(size, word) + 0x80_0000
  {
    LowBits(size, word);
    LowBits(size, word + 0x80_0000);
  }

  lemma LowBits(size: nat, word: nat)
    requires word < 0x100_0000
    ensures (word + size * 0x100_0000) % 0x1_0000_0000 == word + size % 0x100 * 0x100_0000
  {
  }

  lemma SignOfFirst(bits: U32)
    ensures bits / 0x1_0000 % 256 >= 0x80 <==> Negative(bits)
    ensures bits / 0x1_0000 % 256 == bits / 0x1_0000 % 128 + if Negative(bits) then 0x80 else 0
  {
  }

  lemma WordBytes(bits: U32)
    ensures WordOf(bits) == bits / 0x1_0000 % 128 * 0x1_0000 + bits / 0x100 % 256 * 0x100 + bits % 256
  {
    ModSplit(bits, 0x100, 0x8000);
    ModSplit(bits / 0x100, 0x100, 0x80);
    DivDiv(bits, 0x100, 0x100);
  }

  /** Zero bytes after the third only shift what came before. */
  lemma {:induction false} ZeroTail(b: seq<Byte>)
    requires |b| >= 3
    requires forall i :: 3 <= i < |b| ==> b[i] == 0
    ensures BytesValue(b) == (b[0] as int * 0x1_0000 + b[1] as int * 0x100 + b[2] as int) * Pow256(|b| - 3)
    decreases |b|
  {
    if |b| == 3 {
      assert b[..2][..1] == b[..1] && b[..1][..0] == [];
      assert BytesValue(b[..1]) == b[0];
    } else {
      ZeroTail(b[..|b| - 1]);
    }
  }

  lemma CompactBytes(w: seq<Byte>, bits: U32)
    requires |w| == SizeOf(bits) >= 1
    requires w[0] == bits / 0x1_0000 % 128
    requires |w| >= 2 ==> w[1] == bits / 0x100 % 256
    requires |w| >= 3 ==> w[2] == bits % 256
    requires forall i :: 3 <= i < |w| ==> w[i] == 0
    ensures BytesValue(w) == Shifted(SizeOf(bits), WordOf(bits))
  {
    hide BytesValue;
    WordBytes(bits);
    if |w| == 1 {
      OneByte(w);
      assert Pow256(2) == 0x1_0000;
    } else if |w| == 2 {
      TwoBytes(w);
      assert Pow256(1) == 0x100;
    } else {
      ZeroTail(w);
      if |w| == 3 { assert Pow256(0) == 1; }
    }
  }

  lemma OneByte(w: seq<Byte>)
    requires |w| == 1
    ensures BytesValue(w) == w[0]
  {
    assert w[..0] == [];
  }

  lemma TwoBytes(w: seq<Byte>)
    requires |w| == 2
    ensures BytesValue(w) == w[0] as int * 0x100 + w[1]
  {
    OneByte(w[..1]);
  }

  lemma MagnitudeSmall(n: nat)
    requires 0 < n < 0x100_0000
    ensures n < 0x100 ==> Magnitude(n) == [n]
    ensures 0x100 <= n < 0x1_0000 ==> Magnitude(n) == [n / 0x100, n % 0x100]
    ensures 0x1_0000 <= n ==> Magnitude(n) == [n / 0x1_0000, n / 0x100 % 0x100, n % 0x100]
  {
    hide Magnitude;
    MagnitudeStep(n);
    if n >= 0x100 {
      MagnitudeStep(n / 0x100);
    }
    if n >= 0x1_0000 {
      MagnitudeStep(n / 0x100 / 0x100);
      assert n / 0x100 / 0x100 == n / 0x1_0000;
    }
  }

  lemma MagnitudeStep(n: nat)
    requires n > 0
    ensures Magnitude(n) == if n < 0x100 then [n] else Magnitude(n / 0x100) + [n % 0x100]
  {
    assert Magnitude(0) == [];
  }

  /** The number in the first three bytes of an MPI body, missing ones zero. */
  function FirstThree(b: seq<Byte>): nat {
    (if |b| >= 1 then b[0] as int * 0x1_0000 else 0) +
    (if |b| >= 2 then b[1] as int * 0x100 else 0) +
    (if |b| >= 3 then b[2] as int else 0)
  }

  /** The MPI body has the float's size, and its first three bytes are the word. */
  lemma {:induction false} MpiFloat(n: nat)
    ensures n == 0 ==> MpiBytes(n) == []
    ensures n > 0 ==> |MpiBytes(n)| == FloatSize(n) && FirstThree(MpiBytes(n)) == FloatWord(n)
  {
    if 0 < n < 0x80_0000 {
      MagnitudeSmall(n);
      MpiSmall(n);
    } else if n >= 0x80_0000 {
      MpiFloat(n / 256);
      assert Magnitude(n) == Magnitude(n / 256) + [n % 256];
      assert MpiBytes(n) == MpiBytes(n / 256) + [n % 256];
    }
  }

  lemma MpiSmall(n: nat)
    requires 0 < n < 0x80_0000
    ensures |MpiBytes(n)| == FloatSize(n) && FirstThree(MpiBytes(n)) == FloatWord(n)
  {
    MagnitudeSmall(n);
    var m := Magnitude(n);
    if n < 0x100 {
      assert n >= 0x80 ==> MpiBytes(n) == [0, n];
    } else if n < 0x1_0000 {
      assert n >= 0x8000 ==> MpiBytes(n) == [0, n / 0x100, n % 0x100];
    }
  }

  /** The code's test on size and word is exact: it finds the values of 256 bits and more. */
  lemma OverflowsExactly(size: nat, word: nat)
    requires 0 < word < 0x80_0000
    ensures Overflows(size, word) <==> Shifted(size, word) >= TWO_256
  {
    if size <= 3 {
      ShiftedDown(size, word);
    } else {
      var p := Pow256(size - 3);
      Pow256Top(size - 3);
      if Overflows(size, word) {
        TooLarge(size, word, p);
      } else {
        ShiftedUp(size, word, p);
      }
    }
  }

  lemma TooLarge(size: nat, word: nat, p: nat)
    requires size > 3 && word > 0 && Overflows(size, word)
    requires p == Pow256(size - 3)
    ensures word * p >= TWO_256
  {
    if size == 33 {
      Pow256Top(30);
      MulMono(0x1_0000, word, p);
    } else if size == 34 {
      Pow256Top(31);
      MulMono(0x100, word, p);
    } else {
      Pow256Top(31);
      Pow256Mono(32, size - 3);
      assert Pow256(32) == 256 * Pow256(31);
      MulMono(1, word, p);
    }
  }

  /** `Target` keeps exactly the numbers `SetCompact` makes of a word that are neither
      negative nor of more than 256 bits, and reads every other word as zero. */
  lemma TargetAgreesWithCBigNum(bits: U32)
    ensures var v := CompactValue(bits); Target(bits) == if 0 <= v < TWO_256 then v else 0
  {
    var size, word := SizeOf(bits), WordOf(bits);
    if word == 0 {
      ShiftedDown(3, 0);
      assert Shifted(size, 0) == 0;
    } else {
      OverflowsExactly(size, word);
    }
  }
}
