/** The retarget rules of the light client (src/btclight.cpp): Bitcoin's
    `Retarget`, Dogecoin's `DigiShield` and aserti3-2d (`Asert`). */
module Retargets {
  import opened Powers
  import opened CompactTarget

  /** C++ integer division, which truncates toward zero. */
  function Quot(a: int, b: int): int
    requires b > 0
  {
    if a >= 0 then a / b else -((-a) / b)
  }

  function Clamp(lo: nat, hi: nat, x: int): nat {
    if x < lo then lo else if x > hi then hi else x
  }

  function Capped(n: nat, cap: nat): nat { if n > cap then cap else n }

  function Retarget(bits: U32, elapsed: int, limit: U32): U32 {
    var e := Clamp(302400, 4838400, elapsed);
    Bits(Capped(Target(bits) * e / 1209600, Target(limit)))
  }

  function DigiShield(bits: U32, elapsed: int, limit: U32): U32 {
    var modulated := Clamp(45, 90, 60 + Quot(elapsed - 60, 8));
    Bits(Capped(Target(bits) * modulated / 60, Target(limit)))
  }

  /** A capped number goes through the encoding without leaving the cap, without
      growing, and losing less than one part in 2^15. */
  lemma CappedTarget(n: nat, limit: U32)
    ensures var c := Capped(n, Target(limit)); Target(Bits(c)) == Trunc(c) <= c
    ensures var c := Capped(n, Target(limit)); (c - Trunc(c)) * 0x8000 <= c && (c > 0 ==> Trunc(c) > 0)
  {
    var c := Capped(n, Target(limit));
    TargetBelow256(limit);
    TargetOfBits(c);
    TruncLoss(c);
  }

  lemma CappedMono(m: nat, n: nat, limit: U32)
    requires m <= n
    ensures Target(Bits(Capped(m, Target(limit)))) <= Target(Bits(Capped(n, Target(limit))))
  {
    CappedTarget(m, limit);
    CappedTarget(n, limit);
    TruncMono(Capped(m, Target(limit)), Capped(n, Target(limit)));
  }

  lemma ScaledMono(t: nat, e1: nat, e2: nat, span: nat)
    requires e1 <= e2 && span > 0
    ensures t * e1 / span <= t * e2 / span
  {
    MulMono(e1, e2, t);
    DivMono(t * e1, t * e2, span);
  }

  lemma Fractions(t: nat)
    ensures t * 45 / 60 == 3 * t / 4 && t * 90 / 60 == 3 * t / 2
    ensures t * 302400 / 1209600 == t / 4 && t * 4838400 / 1209600 == 4 * t
  {
  }

  /** A capped number between two bounds stays between them, each seen through the
      encoding. */
  lemma Band(lo: nat, n: nat, hi: nat, limit: U32)
    requires lo <= n <= hi
    ensures var cap, r := Target(limit), Target(Bits(Capped(n, Target(limit))));
            && r <= hi && r <= cap
            && r >= Trunc(Capped(lo, cap))
            && (Capped(lo, cap) - r) * 0x8000 <= Capped(lo, cap)
  {
    CappedTarget(n, limit);
    CappedTarget(lo, limit);
    CappedMono(lo, n, limit);
  }

  /** Bitcoin's retarget moves a target by at most a factor of four either way, up to
      the cap and the loss of the encoding. */
  lemma RetargetBand(bits: U32, elapsed: int, limit: U32)
    ensures var t, cap, r := Target(bits), Target(limit), Target(Retarget(bits, elapsed, limit));
            && r <= 4 * t && r <= cap
            && r >= Trunc(Capped(t / 4, cap))
            && (Capped(t / 4, cap) - r) * 0x8000 <= Capped(t / 4, cap)
  {
    var t := Target(bits);
    var e := Clamp(302400, 4838400, elapsed);
    ScaledMono(t, 302400, e, 1209600);
    ScaledMono(t, e, 4838400, 1209600);
    Fractions(t);
    Band(t / 4, t * e / 1209600, 4 * t, limit);
  }

  /** DigiShield moves a target only within [3/4, 3/2]. */
  lemma DigiShieldBand(bits: U32, elapsed: int, limit: U32)
    ensures var t, cap, r := Target(bits), Target(limit), Target(DigiShield(bits, elapsed, limit));
            && r <= 3 * t / 2 && r <= cap
            && r >= Trunc(Capped(3 * t / 4, cap))
            && (Capped(3 * t / 4, cap) - r) * 0x8000 <= Capped(3 * t / 4, cap)
  {
    var t := Target(bits);
    var e := Clamp(45, 90, 60 + Quot(elapsed - 60, 8));
    ScaledMono(t, 45, e, 60);
    ScaledMono(t, e, 90, 60);
    Fractions(t);
    Band(3 * t / 4, t * e / 60, 3 * t / 2, limit);
  }

  /** A longer time never yields a smaller target. */
  lemma RetargetMonotone(bits: U32, e1: int, e2: int, limit: U32)
    requires e1 <= e2
    ensures Target(Retarget(bits, e1, limit)) <= Target(Retarget(bits, e2, limit))
    ensures Target(DigiShield(bits, e1, limit)) <= Target(DigiShield(bits, e2, limit))
  {
    var t := Target(bits);
    var a1, a2 := Clamp(302400, 4838400, e1), Clamp(302400, 4838400, e2);
    ScaledMono(t, a1, a2, 1209600);
    CappedMono(t * a1 / 1209600, t * a2 / 1209600, limit);
    QuotMono(e1 - 60, e2 - 60, 8);
    var d1, d2 := Clamp(45, 90, 60 + Quot(e1 - 60, 8)), Clamp(45, 90, 60 + Quot(e2 - 60, 8));
    ScaledMono(t, d1, d2, 60);
    CappedMono(t * d1 / 60, t * d2 / 60, limit);
  }

  lemma QuotMono(a: int, b: int, d: int)
    requires a <= b && d > 0
    ensures Quot(a, d) <= Quot(b, d)
  {
    if a >= 0 {
      DivMono(a, b, d);
    } else if b < 0 {
      DivMono(-b, -a, d);
    } else {
      DivMono(0, -a, d);
      DivMono(0, b, d);
    }
  }

  /** Litecoin's: a target within a bit of the limit is halved before the product
      and doubled after. */
  function LitecoinScaled(t: nat, e: nat, shift: bool): nat {
    if shift then t / 2 * e / 302400 * 2 else t * e / 302400
  }

  /** The highest bit of zero is undefined in the source. */
  function LitecoinRetarget(bits: U32, elapsed: int, limit: U32): U32
    requires Target(bits) > 0 && Target(limit) > 0
  {
    var t, cap, e := Target(bits), Target(limit), Clamp(75600, 1209600, elapsed);
    Bits(Capped(LitecoinScaled(t, e, Msb(t) + 1 > Msb(cap)), cap))
  }

  /** Halving first costs at most the lowest bits: still within [1/4, 4]. */
  lemma LitecoinBand(bits: U32, elapsed: int, limit: U32)
    requires Target(bits) > 0 && Target(limit) > 0
    ensures var t, cap, r := Target(bits), Target(limit), Target(LitecoinRetarget(bits, elapsed, limit));
            r <= 4 * t && r <= cap && r >= Trunc(Capped(t / 8 * 2, cap))
  {
    var t, e := Target(bits), Clamp(75600, 1209600, elapsed);
    var n := LitecoinScaled(t, e, Msb(t) + 1 > Msb(Target(limit)));
    LitecoinScaledBand(t, e, Msb(t) + 1 > Msb(Target(limit)));
    CappedTarget(n, limit);
    CappedTarget(t / 8 * 2, limit);
    CappedMono(t / 8 * 2, n, limit);
  }

  lemma LitecoinScaledBand(t: nat, e: nat, shift: bool)
    requires 75600 <= e <= 1209600
    ensures t / 8 * 2 <= LitecoinScaled(t, e, shift) <= 4 * t
  {
    if shift { LitecoinStep(t / 2, e); } else { LitecoinStep(t, e); }
  }

  lemma LitecoinStep(t: nat, e: nat)
    requires 75600 <= e <= 1209600
    ensures t / 4 <= t * e / 302400 <= 4 * t
  {
    ScaledMono(t, 75600, e, 302400);
    ScaledMono(t, e, 1209600, 302400);
    assert t * 75600 / 302400 == t / 4;
    assert t * 1209600 / 302400 == 4 * t;
  }

  // ---- aserti3-2d ------------------------------------------------------------

  /** The cubic under the shift, as the source writes it. */
  function Cubic(frac: nat): nat {
    195766423245049 * frac + 971821376 * frac * frac + 5127 * frac * frac * frac + 0x8000_0000_0000
  }

  function Factor(frac: nat): nat {
    65536 + Cubic(frac) / 0x1_0000_0000_0000
  }

  /** The exponent in units of 1/65536 half-lives; the division truncates. */
  function Exponent(timeDiff: int, heightDiff: int, spacing: int, halfLife: int): int
    requires halfLife > 0
  {
    Quot((timeDiff - spacing * (heightDiff + 1)) * 65536, halfLife)
  }

  /** The shift counts are converted to `unsigned int` before shifting. */
  function Shift(n: nat, shifts: int): nat {
    if shifts <= 0 then Over(n, Pow2((-shifts) % 0x1_0000_0000)) else Times(n, Pow2(shifts % 0x1_0000_0000))
  }

  /** `exponent >> 16` floors and the cast to uint16_t keeps the remainder, which is
      Dafny's own division and remainder for a positive divisor. */
  function AsertTarget(t: nat, exponent: int): nat {
    var n := Shift(Times(t, Factor(exponent % 65536)), exponent / 65536 - 16);
    if n == 0 then 1 else n
  }

  function Asert(anchorBits: U32, timeDiff: int, heightDiff: int, spacing: int, halfLife: int, limit: U32): U32
    requires halfLife > 0
  {
    Bits(Capped(AsertTarget(Target(anchorBits), Exponent(timeDiff, heightDiff, spacing, halfLife)), Target(limit)))
  }

  lemma SquareMono(a: nat, b: nat)
    requires a <= b
    ensures a * a <= b * b
  {
    MulMono(a, b, a);
    MulMono(a, b, b);
  }

  lemma CubeMono(a: nat, b: nat)
    requires a <= b
    ensures a * a * a <= b * b * b
  {
    SquareMono(a, b);
    MulMono(a * a, b * b, a);
    MulMono(a, b, b * b);
  }

  lemma CubicMono(a: nat, b: nat)
    requires a <= b
    ensures Cubic(a) <= Cubic(b)
  {
    SquareMono(a, b);
    CubeMono(a, b);
    CubicShape(a);
    CubicShape(b);
  }

  lemma CubicShape(f: nat)
    ensures Cubic(f) == 195766423245049 * f + 971821376 * (f * f) + 5127 * (f * f * f) + 0x8000_0000_0000
  {
    MulAssoc(971821376, f, f);
    MulAssoc(5127 * f, f, f);
    MulAssoc(5127, f, f * f);
    MulAssoc(f, f, f);
  }

  /** The cubic fits in unsigned 64 bits for every fraction, so the source's
      arithmetic never wraps; the factor is between one and two, and grows. */
  lemma FactorRange(frac: nat)
    requires frac < 65536
    ensures Cubic(frac) < 0x1_0000_0000_0000_0000
    ensures 65536 <= Factor(frac) <= 131071
  {
    CubicMono(frac, 65535);
    assert Cubic(65535) < 65536 * 0x1_0000_0000_0000;
  }

  lemma FactorMono(a: nat, b: nat)
    requires a <= b
    ensures Factor(a) <= Factor(b)
  {
    CubicMono(a, b);
    DivMono(Cubic(a), Cubic(b), 0x1_0000_0000_0000);
  }

  /** The factor starts at exactly one: at a whole number of half-lives the target
      is the anchor's, shifted and nothing else. */
  lemma FactorAtZero()
    ensures Factor(0) == 65536
  {
  }

  /** Neither the product with 65536 nor the shift counts leave their types. */
  predicate InRange(timeDiff: int, heightDiff: int, spacing: int, halfLife: int) {
    var behind := timeDiff - spacing * (heightDiff + 1);
    halfLife > 0 && -0x8000_0000_0000 <= behind < 0x8000_0000_0000 &&
    -0x7fff_0000 * halfLife <= behind <= 0x7fff_0000 * halfLife
  }

  predicate ShiftFits(exponent: int) { -0x7fff_0000 <= exponent / 65536 <= 0x7fff_0000 }

  lemma ExponentFits(timeDiff: int, heightDiff: int, spacing: int, halfLife: int)
    requires InRange(timeDiff, heightDiff, spacing, halfLife)
    ensures ShiftFits(Exponent(timeDiff, heightDiff, spacing, halfLife))
  {
    var behind := timeDiff - spacing * (heightDiff + 1);
    var top := 0x7fff_0000 * 65536;
    var x := behind * 65536;
    assert -top * halfLife <= x <= top * halfLife;
    QuotMono(x, top * halfLife, halfLife);
    QuotMono(-top * halfLife, x, halfLife);
    DivExact(top, halfLife, 0);
  }

  /** One more whole half-life outweighs any change of the fraction. */
  lemma ShiftStep(x: nat, y: nat, s: int)
    requires x <= 2 * y
    requires -0x7fff_ffff <= s < 0x7fff_ffff
    ensures Shift(x, s) <= Shift(y, s + 1)
  {
    ShiftIs(x, s);
    ShiftIs(y, s + 1);
    if s < 0 {
      ShiftStepDown(x, y, -s - 1);
    } else {
      ShiftStepUp(x, y, s);
      if s == 0 { assert Pow2(0) == 1; }
    }
  }

  lemma ShiftIs(n: nat, s: int)
    requires -0x7fff_ffff <= s <= 0x7fff_ffff
    ensures Shift(n, s) == if s <= 0 then Over(n, Pow2(-s)) else Times(n, Pow2(s))
  {
    hide Pow2;
    if s <= 0 {
      assert (-s) % 0x1_0000_0000 == -s;
    } else {
      assert s % 0x1_0000_0000 == s;
    }
  }

  lemma ShiftStepDown(x: nat, y: nat, k: nat)
    requires x <= 2 * y
    ensures Over(x, Pow2(k + 1)) <= Over(y, Pow2(k))
  {
    var p := Pow2(k);
    DivMono(x, 2 * y, 2 * p);
    DivDiv(2 * y, 2, p);
    DivExact(y, 2, 0);
  }

  lemma ShiftStepUp(x: nat, y: nat, k: nat)
    requires x <= 2 * y
    ensures Times(x, Pow2(k)) <= Times(y, Pow2(k + 1))
  {
    var p := Pow2(k);
    MulMono(x, 2 * y, p);
    MulAssoc(2, y, p);
    MulAssoc(y, 2, p);
  }

  lemma ShiftMono(x: nat, y: nat, s: int)
    requires x <= y
    ensures Shift(x, s) <= Shift(y, s)
  {
    if s <= 0 {
      DivMono(x, y, Pow2((-s) % 0x1_0000_0000));
    } else {
      MulMono(x, y, Pow2(s % 0x1_0000_0000));
    }
  }

  lemma {:induction false} ShiftMany(x: nat, s1: int, s2: int)
    requires -0x7fff_ffff <= s1 <= s2 <= 0x7fff_ffff
    ensures Shift(x, s1) <= Shift(x, s2)
    decreases s2 - s1
  {
    if s1 < s2 {
      ShiftMany(x, s1, s2 - 1);
      ShiftStep(x, x, s2 - 1);
    }
  }

  /** The target before the cap never falls as the exponent grows, within one
      half-life or across any number of them, on either side of zero. */
  lemma AsertTargetMono(t: nat, e1: int, e2: int)
    requires e1 <= e2 && ShiftFits(e1) && ShiftFits(e2)
    ensures AsertTarget(t, e1) <= AsertTarget(t, e2)
  {
    var f1, f2 := Factor(e1 % 65536), Factor(e2 % 65536);
    FactorRange(e1 % 65536);
    FactorRange(e2 % 65536);
    if e1 / 65536 == e2 / 65536 {
      FactorMono(e1 % 65536, e2 % 65536);
    }
    ShiftedProductMono(t, f1, f2, e1 / 65536 - 16, e2 / 65536 - 16);
  }

  lemma ShiftedProductMono(t: nat, f1: nat, f2: nat, s1: int, s2: int)
    requires -0x7fff_ffff <= s1 <= s2 <= 0x7fff_ffff
    requires s1 == s2 ==> f1 <= f2
    requires f1 <= 2 * f2
    ensures Shift(Times(t, f1), s1) <= Shift(Times(t, f2), s2)
  {
    if s1 == s2 {
      MulMono(f1, f2, t);
      ShiftMono(Times(t, f1), Times(t, f2), s1);
    } else {
      MulMono(f1, 2 * f2, t);
      MulAssoc(2, f2, t);
      ShiftStep(Times(t, f1), Times(t, f2), s1);
      ShiftMany(Times(t, f2), s1 + 1, s2);
    }
  }

  /** aserti3-2d never yields a zero target or one above the limit. */
  lemma AsertWithinLimit(anchorBits: U32, timeDiff: int, heightDiff: int, spacing: int, halfLife: int, limit: U32)
    requires halfLife > 0
    ensures var r := Target(Asert(anchorBits, timeDiff, heightDiff, spacing, halfLife, limit));
            r <= Target(limit) && (r > 0 <==> Target(limit) > 0)
  {
    CappedTarget(AsertTarget(Target(anchorBits), Exponent(timeDiff, heightDiff, spacing, halfLife)), limit);
  }

  /** It is monotone in the elapsed time, through the truncating division, the
      flooring shift, the cap and the compact encoding. */
  lemma AsertMonotone(anchorBits: U32, time1: int, time2: int, heightDiff: int, spacing: int, halfLife: int, limit: U32)
    requires time1 <= time2
    requires InRange(time1, heightDiff, spacing, halfLife) && InRange(time2, heightDiff, spacing, halfLife)
    ensures Target(Asert(anchorBits, time1, heightDiff, spacing, halfLife, limit))
         <= Target(Asert(anchorBits, time2, heightDiff, spacing, halfLife, limit))
  {
    var e1 := Exponent(time1, heightDiff, spacing, halfLife);
    var e2 := Exponent(time2, heightDiff, spacing, halfLife);
    ExponentFits(time1, heightDiff, spacing, halfLife);
    ExponentFits(time2, heightDiff, spacing, halfLife);
    QuotMono((time1 - spacing * (heightDiff + 1)) * 65536, (time2 - spacing * (heightDiff + 1)) * 65536, halfLife);
    AsertTargetMono(Target(anchorBits), e1, e2);
    CappedMono(AsertTarget(Target(anchorBits), e1), AsertTarget(Target(anchorBits), e2), limit);
  }

  /** A chain exactly on schedule keeps its anchor's target. */
  lemma AsertOnSchedule(anchorBits: U32, heightDiff: int, spacing: int, halfLife: int, limit: U32)
    requires halfLife > 0
    requires 0 < Target(anchorBits) <= Target(limit) && Canonical(anchorBits)
    ensures Asert(anchorBits, spacing * (heightDiff + 1), heightDiff, spacing, halfLife, limit) == anchorBits
  {
    assert Exponent(spacing * (heightDiff + 1), heightDiff, spacing, halfLife) == 0;
    AsertTargetAtZero(Target(anchorBits));
    CanonicalRoundTrip(anchorBits);
  }

  lemma AsertTargetAtZero(t: nat)
    requires t > 0
    ensures AsertTarget(t, 0) == t
  {
    FactorAtZero();
    var n := Times(t, 65536);
    ShiftIs(n, -16);
    assert Pow2(16) == 65536 by { Pow2Small(); }
    DivExact(t, 65536, 0);
  }
}
