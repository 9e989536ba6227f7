/** Powers of two, products, quotients and remainders. */
module Numbers {
  function Pow2(n: nat): (r: nat)
    ensures r >= 1
  {
    if n == 0 then 1 else Pow2(n - 1) + Pow2(n - 1)
  }

  lemma {:induction false} Pow2Add(a: nat, b: nat)
    ensures Pow2(a + b) == Pow2(a) * Pow2(b)
    decreases a
  {
    if a > 0 {
      Pow2Add(a - 1, b);
      assert (Pow2(a - 1) + Pow2(a - 1)) * Pow2(b) == Pow2(a - 1) * Pow2(b) + Pow2(a - 1) * Pow2(b);
    }
  }

  lemma {:induction false} Pow2Monotone(a: nat, b: nat)
    requires a < b
    ensures Pow2(a) < Pow2(b)
    decreases b
  {
    if a < b - 1 { Pow2Monotone(a, b - 1); }
  }

  lemma Pow2Values()
    ensures Pow2(8) == 0x100 && Pow2(16) == 0x1_0000 && Pow2(32) == 0x1_0000_0000
  {
    assert Pow2(4) == 16;
    Pow2Add(4, 4);
    Pow2Add(8, 8);
    Pow2Add(16, 16);
  }

  lemma ProductMonotone(x: nat, z: nat, y: nat)
    requires x <= z
    ensures x * y <= z * y
  {}

  lemma RemainderIs(x: int, m: int, q: int, r: int)
    requires x == q * m + r && 0 <= r < m
    ensures x % m == r && x / m == q
  {
    var d := x / m - q;
    assert d * m == r - x % m by { assert x == (x / m) * m + x % m; assert (x / m - q) * m == (x / m) * m - q * m; }
    Multiple(m, d);
  }

  lemma Multiple(m: int, d: int)
    requires m > 0
    ensures (d >= 1 ==> d * m >= m) && (d <= -1 ==> d * m <= -m)
  {
    assert (d - 1) * m == d * m - m && (d + 1) * m == d * m + m;
  }

  lemma QuotientBound(x: nat, m: nat)
    requires m > 0
    ensures x / m <= x
  {
    ProductMonotone(1, m, x / m);
    assert x == m * (x / m) + x % m;
  }

  newtype uint32 = x: int | 0 <= x < 0x1_0000_0000

  lemma ScaleBelow(x: nat, n: nat)
    requires x < 0x1_0000_0000 && n > 0
    ensures x * n < n * 0x1_0000_0000
  {
    assert x * n == n * x;
  }

  /** Scaling a 32-bit hash into a range. */
  function FastMod(x: uint32, n: nat): (r: nat)
    requires n > 0
    ensures r < n
  {
    ScaleBelow(x as nat, n);
    (x as nat) * n / 0x1_0000_0000
  }
}
