/** Fixed-width unsigned integers as little-endian lists of 32-bit limbs, for any number of limbs,
    proved to refine the integers modulo a power of two. */
module Arith {
  import opened Numbers

  const BASE := 0x1_0000_0000
  type Limb = x: int | 0 <= x < 0x1_0000_0000

  function Value(a: seq<Limb>): nat { if a == [] then 0 else a[0] + 0x1_0000_0000 * Value(a[1..]) }

  /** 2^(32 n). */
  function Modulus(n: nat): (r: nat)
    ensures r > 0
  {
    if n == 0 then 1 else 0x1_0000_0000 * Modulus(n - 1)
  }

  lemma {:induction false} ValueBelow(a: seq<Limb>)
    ensures Value(a) < Modulus(|a|)
  {
    if a != [] { ValueBelow(a[1..]); }
  }

  /** Equal values mean equal limbs. */
  lemma {:induction false} ValueInjective(a: seq<Limb>, b: seq<Limb>)
    requires |a| == |b| && Value(a) == Value(b)
    ensures a == b
    decreases |a|
  {
    if a != [] {
      ValueInjective(a[1..], b[1..]);
      assert a == [a[0]] + a[1..] && b == [b[0]] + b[1..];
    }
  }

  // ------------------------------------------------------ modular arithmetic

  function Times(q: int, n: nat): int { q * Modulus(n) }

  /** `x` and `y` are equal modulo 2^(32 n). */
  ghost predicate Same(x: int, y: int, n: nat) { exists q :: x - y == Times(q, n) }

  lemma SameBy(x: int, y: int, n: nat, q: int)
    requires x - y == q * Modulus(n)
    ensures Same(x, y, n)
  {
    assert x - y == Times(q, n);
  }

  lemma SameTrans(x: int, y: int, z: int, n: nat)
    requires Same(x, y, n) && Same(y, z, n)
    ensures Same(x, z, n)
  {
    var p :| x - y == Times(p, n);
    var q :| y - z == Times(q, n);
    assert (p + q) * Modulus(n) == p * Modulus(n) + q * Modulus(n);
    SameBy(x, z, n, p + q);
  }

  lemma SameAdd(x: int, y: int, z: int, n: nat)
    requires Same(x, y, n)
    ensures Same(x + z, y + z, n)
  {
    var q :| x - y == Times(q, n);
    SameBy(x + z, y + z, n, q);
  }

  lemma SameMul(x: int, y: int, k: int, n: nat)
    requires Same(x, y, n)
    ensures Same(x * k, y * k, n)
  {
    var q :| x - y == Times(q, n);
    assert (x - y) * k == x * k - y * k;
    assert q * Modulus(n) * k == (q * k) * Modulus(n);
    SameBy(x * k, y * k, n, q * k);
  }

  /** One more limb below. */
  lemma SameLow(r: int, x: int, y: int, n: nat)
    requires n > 0 && Same(x, y, n - 1)
    ensures Same(r + BASE * x, r + BASE * y, n)
  {
    var q :| x - y == Times(q, n - 1);
    assert q * (BASE * Modulus(n - 1)) == BASE * (q * Modulus(n - 1));
    SameBy(r + BASE * x, r + BASE * y, n, q);
  }

  /** Two numbers in range that are equal modulo 2^(32 n) are equal. */
  lemma SameInRange(x: nat, y: nat, n: nat)
    requires Same(x, y, n) && x < Modulus(n) && y < Modulus(n)
    ensures x == y
  {
    var q :| x - y == Times(q, n);
    Multiple(Modulus(n), q);
  }

  // ------------------------------------------- multiply-and-accumulate loops

  /** One pass of `n = carry + acc[i] + m * b[i]`: addition, multiplication by a word, and one row
      of long multiplication are all of this form. */
  function Accumulate(acc: seq<Limb>, b: seq<Limb>, m: nat, carry: nat): (r: seq<Limb>)
    requires |acc| == |b|
    ensures |r| == |acc|
    decreases |acc|
  {
    if acc == [] then []
    else
      var n := carry + acc[0] + m * b[0];
      [n % 0x1_0000_0000] + Accumulate(acc[1..], b[1..], m, n / 0x1_0000_0000)
  }

  lemma Distribute(m: int, x: int, y: int)
    ensures m * (x + BASE * y) == m * x + BASE * (m * y)
  {}

  lemma {:induction false} AccumulateValue(acc: seq<Limb>, b: seq<Limb>, m: nat, carry: nat)
    requires |acc| == |b|
    ensures Same(Value(Accumulate(acc, b, m, carry)), carry + Value(acc) + m * Value(b), |acc|)
    decreases |acc|
  {
    if acc == [] {
      SameBy(0, carry, 0, 0 - carry);
    } else {
      var n := carry + acc[0] + m * b[0];
      var v, w := Value(acc[1..]), Value(b[1..]);
      AccumulateValue(acc[1..], b[1..], m, n / BASE);
      Distribute(m, b[0], w);
      assert carry + Value(acc) + m * Value(b) == n % BASE + BASE * (n / BASE + v + m * w);
      SameLow(n % BASE, Value(Accumulate(acc[1..], b[1..], m, n / BASE)), n / BASE + v + m * w, |acc|);
    }
  }

  /** With a one-word factor and carry, no step exceeds 64 bits and the carry stays one word. */
  lemma NoOverflow(x: Limb, y: Limb, m: Limb, carry: Limb)
    ensures 0 <= carry + x + m * y < 0x1_0000_0000_0000_0000 && (carry + x + m * y) / BASE < BASE
  {
    assert 0 <= m * y <= 0xffff_ffff * 0xffff_ffff by { Products(m, y); }
  }

  lemma Products(x: Limb, y: Limb)
    ensures 0 <= x * y <= 0xffff_ffff * 0xffff_ffff
  {
    ProductMonotone(x, 0xffff_ffff, y);
  }

  function Zeros(n: nat): (r: seq<Limb>)
    ensures |r| == n && forall i :: 0 <= i < n ==> r[i] == 0
  {
    seq(n, _ => 0)
  }

  lemma {:induction false} ZerosValue(n: nat)
    ensures Value(Zeros(n)) == 0
  {
    if n > 0 {
      assert Zeros(n)[1..] == Zeros(n - 1);
      ZerosValue(n - 1);
    }
  }

  lemma AddValue(a: seq<Limb>, b: seq<Limb>)
    requires |a| == |b|
    ensures Same(Value(Accumulate(a, b, 1, 0)), Value(a) + Value(b), |a|)
  {
    AccumulateValue(a, b, 1, 0);
  }

  // ------------------------------------------------------ long multiplication

  /** The rows of long multiplication: each adds one limb of `p` times `b`, one place further up. */
  function Rows(acc: seq<Limb>, p: seq<Limb>, b: seq<Limb>): (r: seq<Limb>)
    requires |acc| == |p| <= |b|
    ensures |r| == |acc|
    decreases |acc|
  {
    if acc == [] then []
    else
      var row := Accumulate(acc, b[..|acc|], p[0], 0);
      [row[0]] + Rows(row[1..], p[1..], b)
  }

  lemma {:induction false} Truncate(b: seq<Limb>, n: nat)
    requires n <= |b|
    ensures Same(Value(b[..n]), Value(b), n)
    decreases n
  {
    if n == 0 {
      SameBy(0, Value(b), 0, 0 - Value(b));
    } else {
      Truncate(b[1..], n - 1);
      assert b[..n][1..] == b[1..][..n - 1];
      SameLow(b[0], Value(b[1..][..n - 1]), Value(b[1..]), n);
    }
  }

  lemma RowValue(acc: seq<Limb>, p0: nat, b: seq<Limb>)
    requires |acc| <= |b|
    ensures Same(Value(Accumulate(acc, b[..|acc|], p0, 0)), Value(acc) + p0 * Value(b), |acc|)
  {
    var n, low := |acc|, Value(b[..|acc|]);
    AccumulateValue(acc, b[..n], p0, 0);
    Truncate(b, n);
    SameMul(low, Value(b), p0, n);
    SameAdd(low * p0, Value(b) * p0, Value(acc), n);
    SameTrans(Value(Accumulate(acc, b[..n], p0, 0)), Value(acc) + p0 * low, Value(acc) + p0 * Value(b), n);
  }

  lemma {:induction false} RowsValue(acc: seq<Limb>, p: seq<Limb>, b: seq<Limb>)
    requires |acc| == |p| <= |b|
    ensures Same(Value(Rows(acc, p, b)), Value(acc) + Value(p) * Value(b), |acc|)
    decreases |acc|
  {
    if acc == [] {
      SameBy(0, Value(p) * Value(b), 0, 0 - Value(p) * Value(b));
    } else {
      var n := |acc|;
      var row := Accumulate(acc, b[..n], p[0], 0);
      RowValue(acc, p[0], b);
      RowsValue(row[1..], p[1..], b);
      RowsStep(Value(acc), p[0], Value(p[1..]), Value(b), row[0], Value(row[1..]), Value(Rows(row[1..], p[1..], b)), n);
    }
  }

  /** The arithmetic of one row, on integers. */
  lemma RowsStep(acc: nat, p0: nat, rest: nat, b: nat, r0: Limb, r: nat, high: nat, n: nat)
    requires n > 0 && Same(r0 + BASE * r, acc + p0 * b, n) && Same(high, r + rest * b, n - 1)
    ensures Same(r0 + BASE * high, acc + (p0 + BASE * rest) * b, n)
  {
    var x := rest * b;
    SameLow(r0, high, r + x, n);
    SameAdd(r0 + BASE * r, acc + p0 * b, BASE * x, n);
    Distribute(b, p0, rest);
    assert (p0 + BASE * rest) * b == p0 * b + BASE * x;
    SameTrans(r0 + BASE * high, r0 + BASE * (r + x), acc + p0 * b + BASE * x, n);
  }

  // -------------------------------------------- complement, increment, compare

  function Complement(a: seq<Limb>): (r: seq<Limb>)
    ensures |r| == |a|
  {
    if a == [] then [] else [0xffff_ffff - a[0]] + Complement(a[1..])
  }

  lemma {:induction false} ComplementValue(a: seq<Limb>)
    ensures Value(Complement(a)) == Modulus(|a|) - 1 - Value(a)
  {
    if a != [] { ComplementValue(a[1..]); }
  }

  function Increment(a: seq<Limb>): (r: seq<Limb>)
    ensures |r| == |a|
  {
    if a == [] then [] else if a[0] == 0xffff_ffff then [0] + Increment(a[1..]) else [a[0] + 1] + a[1..]
  }

  lemma {:induction false} IncrementValue(a: seq<Limb>)
    ensures Same(Value(Increment(a)), Value(a) + 1, |a|)
  {
    if a == [] {
      SameBy(0, 1, 0, -1);
    } else if a[0] == 0xffff_ffff {
      IncrementValue(a[1..]);
      SameLow(0, Value(Increment(a[1..])), Value(a[1..]) + 1, |a|);
    } else {
      assert ([a[0] + 1] + a[1..])[1..] == a[1..];
      SameBy(Value(a) + 1, Value(a) + 1, |a|, 0);
    }
  }

  /** The sign of the difference, decided by the highest limb that differs. */
  function Compare(a: seq<Limb>, b: seq<Limb>): int
    requires |a| == |b|
    decreases |a|
  {
    if a == [] then 0
    else if Compare(a[1..], b[1..]) != 0 then Compare(a[1..], b[1..])
    else if a[0] < b[0] then -1 else if a[0] > b[0] then 1 else 0
  }

  lemma {:induction false} CompareValue(a: seq<Limb>, b: seq<Limb>)
    requires |a| == |b|
    ensures Compare(a, b) == if Value(a) < Value(b) then -1 else if Value(a) > Value(b) then 1 else 0
    decreases |a|
  {
    if a != [] { CompareValue(a[1..], b[1..]); }
  }

  function Negate(b: seq<Limb>): (r: seq<Limb>)
    ensures |r| == |b|
  {
    Increment(Complement(b))
  }

  lemma NegateValue(b: seq<Limb>)
    ensures Same(Value(Negate(b)), 0 - Value(b), |b|)
  {
    ComplementValue(b);
    IncrementValue(Complement(b));
    SameBy(Value(Complement(b)) + 1, 0 - Value(b), |b|, 1);
    SameTrans(Value(Negate(b)), Value(Complement(b)) + 1, 0 - Value(b), |b|);
  }

  /** `a += -b`. */
  function Subtract(a: seq<Limb>, b: seq<Limb>): (r: seq<Limb>)
    requires |a| == |b|
    ensures |r| == |a|
  {
    Accumulate(a, Negate(b), 1, 0)
  }

  lemma SubtractValue(a: seq<Limb>, b: seq<Limb>)
    requires |a| == |b|
    ensures Same(Value(Subtract(a, b)), Value(a) - Value(b), |a|)
  {
    NegateValue(b);
    AddValue(a, Negate(b));
    SameAdd(Value(Negate(b)), 0 - Value(b), Value(a), |a|);
    SameTrans(Value(Subtract(a, b)), Value(a) + Value(Negate(b)), Value(a) - Value(b), |a|);
  }

  // ------------------------------------------------------------------ shifts

  /** Bitwise or. */
  function Or(x: nat, y: nat): nat
    decreases x
  {
    if x == 0 then y else if y == 0 then x else 2 * Or(x / 2, y / 2) + if x % 2 == 1 || y % 2 == 1 then 1 else 0
  }

  lemma HalfSum(low: nat, h: nat)
    ensures (low + (h + h)) / 2 == low / 2 + h && (h + h) / 2 == h && (h + h) % 2 == 0
  {}

  lemma DoubleProduct(x: int, p: int)
    ensures x * (p + p) == x * p + x * p && (p + p) * x == p * x + p * x
  {}

  lemma OrStep(low: nat, h: nat)
    ensures Or(low, h + h) == 2 * Or(low / 2, h) + low % 2
  {
    HalfSum(0, h);
    if low > 0 && h > 0 { assert Or(low, h + h) == 2 * Or(low / 2, (h + h) / 2) + if low % 2 == 1 then 1 else 0; }
  }

  /** On disjoint bits, or is addition. */
  lemma {:induction false} OrIsSum(low: nat, high: nat, s: nat)
    requires low < Pow2(s)
    ensures Or(low, high * Pow2(s)) == low + high * Pow2(s)
    decreases s
  {
    if s > 0 {
      var p := Pow2(s - 1);
      DoubleProduct(high, p);
      OrStep(low, high * p);
      OrIsSum(low / 2, high, s - 1);
    }
  }

  /** `x << s` and `x >> s` on one limb, with the power of two as the argument. */
  function Left(x: Limb, p: nat): Limb { x * p % 0x1_0000_0000 }
  function Right(x: Limb, q: nat): (r: Limb)
    requires q > 0
    ensures r <= x
  {
    QuotientBound(x, q);
    x / q
  }

  /** The factors of a shift within a limb. */
  lemma Factors(s: nat)
    requires s <= 32
    ensures Pow2(s) * Pow2(32 - s) == BASE
  {
    Pow2Add(s, 32 - s);
    Pow2Values();
  }

  lemma ProductRemainder(x: nat, p: nat, q: nat)
    requires p > 0 && q > 0
    ensures (x * p) % (p * q) == (x % q) * p && (x * p) / (p * q) == x / q
  {
    assert x == (x / q) * q + x % q;
    assert x * p == ((x / q) * q + x % q) * p == (x / q) * (p * q) + (x % q) * p;
    assert (x % q) * p <= (q - 1) * p by { ProductMonotone(x % q, q - 1, p); }
    assert (q - 1) * p == p * q - p;
    RemainderIs(x * p, p * q, x / q, (x % q) * p);
  }

  lemma BelowFactor(x: Limb, p: nat, q: nat)
    requires p > 0 && q > 0 && p * q == BASE
    ensures x / q < p
  {
    if x / q >= p {
      assert x == (x / q) * q + x % q;
      ProductMonotone(p, x / q, q);
    }
  }

  /** A limb shifted up by `p`, and the bits that spill over from the one below. */
  lemma SpillOver(below: Limb, x: Limb, s: nat, p: nat, q: nat)
    requires p == Pow2(s) && q > 0 && p * q == BASE
    ensures Or(Right(below, q), Left(x, p)) == below / q + (x % q) * p
  {
    BelowFactor(below, p, q);
    ProductRemainder(x, p, q);
    OrIsSum(below / q, x % q, s);
  }

  lemma {:induction false} OrBound(x: nat, y: nat, n: nat)
    requires x < Pow2(n) && y < Pow2(n)
    ensures Or(x, y) < Pow2(n)
    decreases n
  {
    if n > 0 { OrBound(x / 2, y / 2, n - 1); }
  }

  lemma {:induction false} OrComm(x: nat, y: nat)
    ensures Or(x, y) == Or(y, x)
    decreases x
  {
    if x > 0 && y > 0 { OrComm(x / 2, y / 2); }
  }

  function OrLimb(x: Limb, y: Limb): Limb {
    Pow2Values();
    OrBound(x, y, 32);
    Or(x, y)
  }

  /** The limb at an index, 0 outside. */
  function Pick(a: seq<Limb>, i: int): Limb { if 0 <= i < |a| then a[i] else 0 }

  function LimbUp(a: seq<Limb>, i: int, p: nat, q: nat): Limb
    requires q > 0
  {
    OrLimb(Right(Pick(a, i - 1), q), Left(Pick(a, i), p))
  }

  function LimbDown(a: seq<Limb>, i: int, p: nat, q: nat): Limb
    requires p > 0
  {
    OrLimb(Right(Pick(a, i), p), Left(Pick(a, i + 1), q))
  }

  /** `k` whole limbs and a factor `p` up or down; `p * q` is one limb. */
  function MoveUp(a: seq<Limb>, k: nat, p: nat, q: nat): (r: seq<Limb>)
    requires q > 0
    ensures |r| == |a| && forall j :: 0 <= j < |a| ==> r[j] == LimbUp(a, j - k, p, q)
  {
    seq<Limb>(|a|, j requires 0 <= j < |a| => LimbUp(a, j - k, p, q))
  }

  function MoveDown(a: seq<Limb>, k: nat, p: nat, q: nat): (r: seq<Limb>)
    requires p > 0
    ensures |r| == |a| && forall j :: 0 <= j < |a| ==> r[j] == LimbDown(a, j + k, p, q)
  {
    seq<Limb>(|a|, j requires 0 <= j < |a| => LimbDown(a, j + k, p, q))
  }

  function ShiftLeft(a: seq<Limb>, shift: nat): (r: seq<Limb>)
    ensures |r| == |a|
  {
    MoveUp(a, shift / 32, Pow2(shift % 32), Pow2(32 - shift % 32))
  }

  function ShiftRight(a: seq<Limb>, shift: nat): (r: seq<Limb>)
    ensures |r| == |a|
  {
    MoveDown(a, shift / 32, Pow2(shift % 32), Pow2(32 - shift % 32))
  }

  // ------------------------------------------------------------- moving limbs

  lemma {:induction false} ModulusAdd(k: nat, n: nat)
    ensures Modulus(k + n) == Modulus(k) * Modulus(n)
    decreases k
  {
    if k > 0 { ModulusAdd(k - 1, n); }
  }

  lemma {:induction false} ModulusIsPow2(n: nat)
    ensures Modulus(n) == Pow2(32 * n)
  {
    if n > 0 {
      ModulusIsPow2(n - 1);
      Pow2Add(32, 32 * (n - 1));
      Pow2Values();
    }
  }

  lemma {:induction false} ZerosBelow(k: nat, a: seq<Limb>)
    ensures Value(Zeros(k) + a) == Modulus(k) * Value(a)
  {
    if k == 0 {
      assert Zeros(0) + a == a;
    } else {
      assert (Zeros(k) + a)[1..] == Zeros(k - 1) + a;
      ZerosBelow(k - 1, a);
    }
  }

  lemma {:induction false} ZerosAbove(a: seq<Limb>, k: nat)
    ensures Value(a + Zeros(k)) == Value(a)
    decreases |a|
  {
    if a == [] {
      assert a + Zeros(k) == Zeros(k);
      ZerosValue(k);
    } else {
      assert (a + Zeros(k))[1..] == a[1..] + Zeros(k);
      ZerosAbove(a[1..], k);
    }
  }

  lemma {:induction false} DropLimbs(a: seq<Limb>, k: nat)
    requires k <= |a|
    ensures Value(a[k..]) == Value(a) / Modulus(k)
    decreases k
  {
    if k == 0 {
      assert a[0..] == a;
    } else {
      assert a[k..] == a[1..][k - 1..];
      DropLimbs(a[1..], k - 1);
      DivideTwice(a[0], Value(a[1..]), Modulus(k - 1));
    }
  }

  lemma DivideTwice(r: Limb, v: nat, m: nat)
    requires m > 0
    ensures (r + BASE * v) / (BASE * m) == v / m
  {
    assert v == (v / m) * m + v % m;
    assert (v / m) * (BASE * m) == BASE * ((v / m) * m);
    RemainderIs(r + BASE * v, BASE * m, v / m, r + BASE * (v % m));
  }

  lemma FactorOut(m: int, x: int, y: int, q: int, n: int)
    requires x - y == q * n
    ensures m * x - m * y == q * (m * n)
  {
    assert m * x - m * y == m * (x - y);
  }

  lemma SameUp(x: int, y: int, k: nat, n: nat)
    requires Same(x, y, n)
    ensures Same(Modulus(k) * x, Modulus(k) * y, k + n)
  {
    var q :| x - y == Times(q, n);
    var m := Modulus(k);
    ModulusAdd(k, n);
    FactorOut(m, x, y, q, Modulus(n));
    SameBy(m * x, m * y, k + n, q);
  }

  // ------------------------------------------------- shifting within the limbs

  /** All limbs shifted up by `p`; `below` spills into the first. */
  function Spilled(below: Limb, a: seq<Limb>, p: nat, q: nat): (r: seq<Limb>)
    requires q > 0
    ensures |r| == |a|
    decreases |a|
  {
    if a == [] then [] else [OrLimb(Right(below, q), Left(a[0], p))] + Spilled(a[0], a[1..], p, q)
  }

  lemma {:induction false} SpilledAt(below: Limb, a: seq<Limb>, p: nat, q: nat, j: nat)
    requires q > 0 && j < |a|
    ensures Spilled(below, a, p, q)[j] == OrLimb(Right(if j == 0 then below else a[j - 1], q), Left(a[j], p))
    decreases |a|
  {
    if j > 0 { SpilledAt(a[0], a[1..], p, q, j - 1); }
  }

  lemma Recompose(x: nat, p: nat, q: nat)
    requires q > 0 && p * q == BASE
    ensures (x % q) * p + BASE * (x / q) == x * p
  {
    assert x == (x / q) * q + x % q;
    assert ((x / q) * q + x % q) * p == (x / q) * (p * q) + (x % q) * p;
  }

  lemma SpilledLimb(below: Limb, x: Limb, s: nat, p: nat, q: nat)
    requires p == Pow2(s) && q > 0 && p * q == BASE
    ensures OrLimb(Right(below, q), Left(x, p)) + BASE * (x / q) == below / q + x * p
  {
    SpillOver(below, x, s, p, q);
    Recompose(x, p, q);
  }

  /** Shifting up is multiplying, with the spilled bits as the carry. */
  lemma {:induction false} SpilledValue(below: Limb, a: seq<Limb>, s: nat, p: nat, q: nat)
    requires p == Pow2(s) && q > 0 && p * q == BASE
    ensures Same(Value(Spilled(below, a, p, q)), below / q + p * Value(a), |a|)
    decreases |a|
  {
    if a == [] {
      SameBy(0, below / q, 0, 0 - below / q);
    } else {
      var limb, rest, w := OrLimb(Right(below, q), Left(a[0], p)), Value(Spilled(a[0], a[1..], p, q)), Value(a[1..]);
      SpilledLimb(below, a[0], s, p, q);
      SpilledValue(a[0], a[1..], s, p, q);
      SameLow(limb, rest, a[0] / q + p * w, |a|);
      Distribute(p, a[0], w);
      assert Value(Spilled(below, a, p, q)) == limb + BASE * rest;
    }
  }

  /** All limbs shifted down by `p`. */
  function Sunk(a: seq<Limb>, p: nat, q: nat): (r: seq<Limb>)
    requires p > 0
    ensures |r| == |a|
    decreases |a|
  {
    if a == [] then [] else [OrLimb(Right(a[0], p), Left(Pick(a, 1), q))] + Sunk(a[1..], p, q)
  }

  lemma {:induction false} SunkAt(a: seq<Limb>, p: nat, q: nat, j: nat)
    requires p > 0 && j < |a|
    ensures Sunk(a, p, q)[j] == OrLimb(Right(a[j], p), Left(Pick(a, j + 1), q))
    decreases |a|
  {
    if j > 0 { SunkAt(a[1..], p, q, j - 1); }
  }

  lemma SinkStep(x: nat, v: nat, p: nat, q: nat)
    requires p > 0 && p * q == BASE
    ensures (x + BASE * v) / p == x / p + (v % p) * q + BASE * (v / p)
  {
    assert x == (x / p) * p + x % p && v == (v / p) * p + v % p;
    assert BASE * v == (q * v) * p;
    assert (x / p + q * v) * p == (x / p) * p + (q * v) * p;
    RemainderIs(x + BASE * v, p, x / p + q * v, x % p);
    assert q * ((v / p) * p + v % p) == (p * q) * (v / p) + (v % p) * q;
  }

  lemma LowRemainder(x: nat, v: nat, p: nat, q: nat)
    requires p > 0 && p * q == BASE
    ensures (x + BASE * v) % p == x % p
  {
    assert x == (x / p) * p + x % p;
    assert BASE * v == (q * v) * p;
    assert (x / p + q * v) * p == (x / p) * p + (q * v) * p;
    RemainderIs(x + BASE * v, p, x / p + q * v, x % p);
  }

  lemma SunkLimb(x: Limb, next: Limb, t: nat, p: nat, q: nat)
    requires q == Pow2(t) && p > 0 && p * q == BASE
    ensures OrLimb(Right(x, p), Left(next, q)) == x / p + (next % p) * q
  {
    SpillOver(x, next, t, q, p);
  }

  lemma {:induction false} SunkValue(a: seq<Limb>, t: nat, p: nat, q: nat)
    requires q == Pow2(t) && p > 0 && p * q == BASE
    ensures Value(Sunk(a, p, q)) == Value(a) / p
    decreases |a|
  {
    if a != [] {
      SunkValue(a[1..], t, p, q);
      var next, v := Pick(a, 1), Value(a[1..]);
      SunkLimb(a[0], next, t, p, q);
      assert v % p == next % p by {
        if |a| > 1 { LowRemainder(next, Value(a[1..][1..]), p, q); }
      }
      SinkStep(a[0], v, p, q);
    }
  }

  // ------------------------------------------------------ shifts by any amount

  lemma ShiftFactors(shift: nat)
    ensures Pow2(shift) == Modulus(shift / 32) * Pow2(shift % 32)
    ensures Pow2(shift % 32) * Pow2(32 - shift % 32) == BASE
  {
    ModulusIsPow2(shift / 32);
    Pow2Add(32 * (shift / 32), shift % 32);
    Factors(shift % 32);
  }

  lemma MoveUpLimbs(a: seq<Limb>, k: nat, p: nat, q: nat)
    requires q > 0
    ensures MoveUp(a, k, p, q) == if k < |a| then Zeros(k) + Spilled(0, a[..|a| - k], p, q) else Zeros(|a|)
  {
    var r := if k < |a| then Zeros(k) + Spilled(0, a[..|a| - k], p, q) else Zeros(|a|);
    forall j | 0 <= j < |a| ensures MoveUp(a, k, p, q)[j] == r[j] {
      if j >= k { SpilledAt(0, a[..|a| - k], p, q, j - k); }
    }
  }

  lemma SpilledWhole(a: seq<Limb>, n: nat, s: nat, p: nat, q: nat)
    requires n <= |a| && p == Pow2(s) && q > 0 && p * q == BASE
    ensures Same(Value(Spilled(0, a[..n], p, q)), p * Value(a), n)
  {
    var b := a[..n];
    SpilledValue(0, b, s, p, q);
    Truncate(a, n);
    SameMul(Value(b), Value(a), p, n);
    assert 0 / q == 0;
    SameTrans(Value(Spilled(0, b, p, q)), p * Value(b), p * Value(a), n);
  }

  lemma Raised(up: seq<Limb>, y: int, k: nat, w: nat)
    requires k <= w && Same(Value(up), y, w - k)
    ensures Same(Value(Zeros(k) + up), Modulus(k) * y, w)
  {
    ZerosBelow(k, up);
    SameUp(Value(up), y, k, w - k);
  }

  lemma NothingLeft(x: int, k: nat, w: nat)
    requires k >= w
    ensures Same(Value(Zeros(w)), Modulus(k) * x, w)
  {
    ZerosValue(w);
    ModulusAdd(w, k - w);
    AllOut(x, w, k - w);
  }

  lemma MoveUpValue(a: seq<Limb>, k: nat, s: nat, p: nat, q: nat)
    requires p == Pow2(s) && q > 0 && p * q == BASE
    ensures Same(Value(MoveUp(a, k, p, q)), Modulus(k) * (p * Value(a)), |a|)
  {
    var y := p * Value(a);
    MoveUpLimbs(a, k, p, q);
    if k < |a| {
      SpilledWhole(a, |a| - k, s, p, q);
      Raised(Spilled(0, a[..|a| - k], p, q), y, k, |a|);
    } else {
      NothingLeft(y, k, |a|);
    }
  }

  lemma AllOut(x: int, w: nat, k: nat)
    requires Modulus(w + k) == Modulus(w) * Modulus(k)
    ensures Same(0, Modulus(w + k) * x, w)
  {
    var m, r := Modulus(w), Modulus(k);
    assert m * r * x == (r * x) * m;
    assert (0 - r * x) * m == 0 - (r * x) * m;
    SameBy(0, m * r * x, w, 0 - r * x);
  }

  /** `<<=` multiplies by a power of two, modulo the width. */
  lemma ShiftLeftValue(a: seq<Limb>, shift: nat)
    ensures Same(Value(ShiftLeft(a, shift)), Value(a) * Pow2(shift), |a|)
  {
    var k, p := shift / 32, Pow2(shift % 32);
    ShiftFactors(shift);
    MoveUpValue(a, k, shift % 32, p, Pow2(32 - shift % 32));
    Regroup(Modulus(k), p, Value(a));
  }

  lemma Regroup(m: int, p: int, x: int)
    ensures m * (p * x) == x * (m * p)
  {}

  lemma MoveDownLimbs(a: seq<Limb>, k: nat, p: nat, q: nat)
    requires p > 0
    ensures MoveDown(a, k, p, q) == if k < |a| then Sunk(a[k..], p, q) + Zeros(k) else Zeros(|a|)
  {
    var r := if k < |a| then Sunk(a[k..], p, q) + Zeros(k) else Zeros(|a|);
    forall j | 0 <= j < |a| ensures MoveDown(a, k, p, q)[j] == r[j] {
      ZeroParts(p, q);
      if j + k < |a| { SunkAt(a[k..], p, q, j); }
    }
  }

  lemma ZeroParts(p: nat, q: nat)
    requires p > 0
    ensures OrLimb(Right(0, p), Left(0, q)) == 0
  {}

  lemma MoveDownValue(a: seq<Limb>, k: nat, t: nat, p: nat, q: nat)
    requires q == Pow2(t) && p > 0 && p * q == BASE
    ensures Value(MoveDown(a, k, p, q)) == Value(a) / (Modulus(k) * p)
  {
    var w := |a|;
    MoveDownLimbs(a, k, p, q);
    if k < w {
      ZerosAbove(Sunk(a[k..], p, q), k);
      SunkValue(a[k..], t, p, q);
      DropLimbs(a, k);
      DivideByProduct(Value(a), Modulus(k), p);
    } else {
      ZerosValue(w);
      ValueBelow(a);
      ModulusAdd(w, k - w);
      SmallQuotient(Value(a), Modulus(w), Modulus(k - w), p);
    }
  }

  /** `>>=` divides by a power of two. */
  lemma ShiftRightValue(a: seq<Limb>, shift: nat)
    ensures Value(ShiftRight(a, shift)) == Value(a) / Pow2(shift)
  {
    ShiftFactors(shift);
    MoveDownValue(a, shift / 32, 32 - shift % 32, Pow2(shift % 32), Pow2(32 - shift % 32));
  }

  lemma DivideByProduct(x: nat, m: nat, p: nat)
    requires m > 0 && p > 0
    ensures (x / m) / p == x / (m * p)
  {
    var y := x / m;
    var z, r := y / p, y % p;
    assert y == z * p + r;
    assert x == y * m + x % m;
    assert (z * p + r) * m == z * (m * p) + r * m;
    ProductMonotone(r, p - 1, m);
    assert (p - 1) * m == m * p - m;
    RemainderIs(x, m * p, z, r * m + x % m);
  }

  lemma SmallQuotient(x: nat, m: nat, r: nat, p: nat)
    requires x < m && r > 0 && p > 0
    ensures x / (m * r * p) == 0
  {
    ProductMonotone(1, r, m);
    ProductMonotone(1, p, m * r);
    RemainderIs(x, m * r * p, 0, x);
  }

  // ---------------------------------------------------------------- bit counts

  function BitLength(x: nat): nat { if x == 0 then 0 else 1 + BitLength(x / 2) }

  lemma {:induction false} BitLengthMeans(x: nat)
    ensures x < Pow2(BitLength(x)) && (x > 0 ==> BitLength(x) > 0 && Pow2(BitLength(x) - 1) <= x)
  {
    if x > 1 { BitLengthMeans(x / 2); }
  }

  lemma {:induction false} BitLengthIs(x: nat, n: nat)
    requires Pow2(n) <= x < Pow2(n + 1)
    ensures BitLength(x) == n + 1
    decreases n
  {
    if n > 0 { BitLengthIs(x / 2, n - 1); }
  }

  lemma BitLengthStep(low: nat, h: nat)
    requires low + (h + h) > 0
    ensures BitLength(low + (h + h)) == 1 + BitLength(low / 2 + h)
  {
    HalfSum(low, h);
  }

  lemma Positive(p: nat, x: nat)
    requires p > 0 && x > 0
    ensures p * x > 0
  {}

  lemma Once(x: int, top: int)
    requires top == Pow2(0) * x
    ensures top == x
  {}

  lemma TopHalf(x: nat, n: nat, top: int) returns (half: nat)
    requires n > 0 && x > 0 && top == Pow2(n) * x
    ensures half == Pow2(n - 1) * x && top == half + half && half > 0
  {
    DoubleProduct(x, Pow2(n - 1));
    Positive(Pow2(n - 1), x);
    half := Pow2(n - 1) * x;
  }

  /** The limbs below the highest one that is not 0 each add 32 bits. */
  lemma {:induction false} BitLengthHigh(low: nat, x: nat, n: nat, top: nat)
    requires low < Pow2(n) && x > 0 && top == Pow2(n) * x
    ensures BitLength(low + top) == n + BitLength(x)
    decreases n
  {
    if n > 0 {
      var half := TopHalf(x, n, top);
      BitLengthStep(low, half);
      BitLengthHigh(low / 2, x, n - 1, half);
    } else {
      Once(x, top);
    }
  }

  /** How many bits the limbs need, found at the highest limb that is not 0. */
  function Bits(a: seq<Limb>): nat {
    if a == [] then 0 else if Bits(a[1..]) > 0 then 32 + Bits(a[1..]) else BitLength(a[0])
  }

  lemma {:induction false} BitsValue(a: seq<Limb>)
    ensures Bits(a) == BitLength(Value(a)) <= 32 * |a|
  {
    if a != [] {
      BitsValue(a[1..]);
      Pow2Values();
      if Value(a[1..]) > 0 { BitLengthHigh(a[0], Value(a[1..]), 32, BASE * Value(a[1..])); }
      else { LimbBits(a[0]); }
    }
  }

  lemma LimbBits(x: Limb)
    ensures BitLength(x) <= 32
  {
    Pow2Values();
    BitLengthMeans(x);
    if BitLength(x) > 32 { if BitLength(x) > 33 { Pow2Monotone(32, BitLength(x) - 1); } }
  }
}
