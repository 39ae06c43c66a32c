/** Powers of two and the division facts that the fixed-point arithmetic of the
    light client rests on.  Shifts are written `n * Pow2(k)` and `n / Pow2(k)`. */
module Powers {

  function Pow2(k: nat): (p: nat)
    ensures p >= 1
  {
    if k == 0 then 1 else 2 * Pow2(k - 1)
  }

  lemma {:induction false} Pow2Add(a: nat, b: nat)
    ensures Pow2(a + b) == Pow2(a) * Pow2(b)
    decreases a
  {
    if a == 0 {
    } else {
      Pow2Add(a - 1, b);
      MulAssoc(2, Pow2(a - 1), Pow2(b));
    }
  }

  lemma {:induction false} Pow2Mono(a: nat, b: nat)
    requires a <= b
    ensures Pow2(a) <= Pow2(b)
    decreases b - a
  {
    if a < b {
      Pow2Mono(a, b - 1);
    }
  }

  lemma Pow2Small()
    ensures Pow2(1) == 2 && Pow2(2) == 4 && Pow2(3) == 8 && Pow2(4) == 16 && Pow2(5) == 32
    ensures Pow2(6) == 64 && Pow2(7) == 128 && Pow2(8) == 256
    ensures Pow2(9) == 512 && Pow2(10) == 1024 && Pow2(11) == 2048 && Pow2(12) == 4096
    ensures Pow2(13) == 8192 && Pow2(14) == 16384 && Pow2(15) == 32768 && Pow2(16) == 65536
  {
    assert Pow2(4) == 16;
    assert Pow2(8) == 256;
    assert Pow2(12) == 4096;
  }

  lemma MulAssoc(a: int, b: int, c: int)
    ensures a * b * c == a * (b * c)
  {
  }

  /** Product and floor quotient of naturals, for shifts. */
  function Times(a: nat, b: nat): (p: nat)
    ensures p == a * b
  {
    a * b
  }

  function Over(a: nat, b: nat): (q: nat)
    requires b > 0
    ensures q == a / b
  {
    a / b
  }

  lemma MulStrict(a: int, b: int, c: nat)
    requires a < b && c > 0
    ensures a * c < b * c
  {
  }

  lemma MulMono(a: int, b: int, c: nat)
    requires a <= b
    ensures a * c <= b * c
  {
  }

  /** The two defining facts of a floor quotient. */
  lemma DivBounds(n: nat, d: nat)
    requires d > 0
    ensures n / d * d <= n < n / d * d + d
    ensures n % d == n - n / d * d
  {
  }

  lemma OverAtMost(n: nat, d: nat)
    requires d > 0
    ensures Over(n, d) <= n
  {
    DivBounds(n, d);
    MulMono(1, d, n / d);
  }

  /** A quotient is the only integer that meets them. */
  lemma DivUnique(n: nat, d: nat, q: int)
    requires d > 0
    requires q * d <= n < q * d + d
    ensures n / d == q
  {
    var p := n / d;
    DivBounds(n, d);
    if p < q {
      MulMono(p + 1, q, d);
    } else if q < p {
      MulMono(q + 1, p, d);
    }
  }

  lemma DivMono(a: nat, b: nat, d: nat)
    requires a <= b && d > 0
    ensures a / d <= b / d
  {
    DivBounds(a, d);
    DivBounds(b, d);
    if b / d < a / d {
      MulMono(b / d + 1, a / d, d);
    }
  }

  /** Shifting down twice is shifting down once by the sum. */
  lemma DivDiv(n: nat, a: nat, b: nat)
    requires a > 0 && b > 0
    ensures a * b > 0
    ensures n / a / b == n / (a * b)
  {
    MulMono(1, a, b);
    DivBounds(n, a);
    DivBounds(n / a, b);
    Nested(n, a, b, n / a, n % a, n / a / b, n / a % b);
    DivUnique(n, a * b, n / a / b);
  }

  lemma Nested(n: nat, a: nat, b: nat, x: nat, r: nat, q: nat, s: nat)
    requires n == x * a + r && r < a && x == q * b + s && s < b
    ensures q * (a * b) <= n < q * (a * b) + a * b
  {
    MulMono(s + 1, b, a);
    assert (s + 1) * a == s * a + a && b * a == a * b;
    assert x * a == q * b * a + s * a;
    MulAssoc(q, b, a);
  }

  /** `n * d / d == n`, and a smaller remainder does not change it. */
  lemma DivExact(q: nat, d: nat, r: nat)
    requires r < d
    ensures (q * d + r) / d == q && (q * d + r) % d == r
  {
    DivUnique(q * d + r, d, q);
    DivBounds(q * d + r, d);
  }

  /** A remainder by a product, taken in two steps. */
  lemma ModSplit(n: nat, a: nat, b: nat)
    requires a > 0 && b > 0
    ensures a * b > 0 && n % (a * b) == n / a % b * a + n % a
  {
    var q, r := n / a / b, n / a % b;
    DivBounds(n, a);
    DivBounds(n / a, b);
    assert (q * b + r) * a == q * (a * b) + r * a;
    MulMono(r + 1, b, a);
    MulMono(1, a, b);
    DivExact(q, a * b, r * a + n % a);
  }

  /** A number between two multiples has its quotient between the multipliers. */
  lemma DivRange(n: nat, d: nat, a: nat, b: nat)
    requires d > 0
    requires a * d <= n < b * d
    ensures a <= n / d < b
  {
    var q := n / d;
    DivBounds(n, d);
    if q < a {
      MulMono(q + 1, a, d);
    } else if b <= q {
      MulMono(b, q, d);
    }
  }

  // ---- bytes -----------------------------------------------------------------

  function Pow256(k: nat): (p: nat)
    ensures p >= 1
  {
    if k == 0 then 1 else 256 * Pow256(k - 1)
  }

  const TWO_232 := 0x1_0000000000_0000000000_0000000000_0000000000_0000000000_00000000
  const TWO_240 := 0x100 * TWO_232
  const TWO_248 := 0x100 * TWO_240
  const TWO_256 := 0x100 * TWO_248

  lemma {:induction false} Pow2Bytes(k: nat)
    ensures Pow2(8 * k) == Pow256(k)
  {
    if k > 0 {
      Pow2Bytes(k - 1);
      Pow2Add(8, 8 * (k - 1));
      assert Pow2(8) == 256;
    }
  }

  lemma {:induction false} Pow256Mono(a: nat, b: nat)
    requires a <= b
    ensures Pow256(a) <= Pow256(b)
    decreases b - a
  {
    if a < b {
      Pow256Mono(a, b - 1);
    }
  }

  lemma {:induction false} Pow256Add(a: nat, b: nat)
    ensures Pow256(a + b) == Pow256(a) * Pow256(b)
    decreases a
  {
    if a > 0 {
      Pow256Add(a - 1, b);
      MulAssoc(256, Pow256(a - 1), Pow256(b));
    }
  }

  /** The powers around the 256-bit boundary, as numbers. */
  lemma Pow256Top(k: nat)
    ensures k <= 29 ==> Pow256(k) <= TWO_232
    ensures k == 30 ==> Pow256(k) == TWO_240
    ensures k == 31 ==> Pow256(k) == TWO_248
    ensures k >= 31 ==> Pow256(k) >= TWO_248
  {
    assert Pow256(7) == 0x1_00000000000000;
    assert Pow256(8) == 0x1_0000000000000000;
    Pow256Add(7, 7);
    Pow256Add(7, 8);
    Pow256Add(14, 15);
    assert Pow256(30) == 256 * Pow256(29);
    assert Pow256(31) == 256 * Pow256(30);
    if k <= 29 { Pow256Mono(k, 29); }
    if k >= 31 { Pow256Mono(31, k); }
  }
}
