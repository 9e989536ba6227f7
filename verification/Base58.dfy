/** Base58: a byte string and its text are the same number in two bases, with leading zeros kept
    apart.  Buffers are listed from their last element, the order in which the source fills them. */
module Base58 {
  import opened Numbers
  import opened Common


  // --------------------------------------------------- numbers and their digits

  /** Digits of a number, least significant first, without leading zeros. */
  function Digits(v: nat, base: nat): (r: seq<nat>)
    requires base >= 2
    ensures v == 0 <==> r == []
    decreases v
  {
    if v == 0 then []
    else
      Shrinks(v, base);
      [v % base] + Digits(v / base, base)
  }

  lemma Shrinks(v: nat, base: nat)
    requires v > 0 && base >= 2
    ensures v / base < v && 0 <= v % base < base && v == v / base * base + v % base
  {
    ProductMonotone(2, base, v / base);
  }

  function Value(d: seq<nat>, base: nat): nat { if d == [] then 0 else d[0] + base * Value(d[1..], base) }

  predicate DigitsOf(d: seq<nat>, base: nat) { forall i :: 0 <= i < |d| ==> d[i] < base }

  /** A digit list whose highest digit is not 0. */
  predicate Canonical(d: seq<nat>, base: nat) { DigitsOf(d, base) && (d != [] ==> d[|d| - 1] != 0) }

  lemma {:induction false} DigitsValue(v: nat, base: nat)
    requires base >= 2
    ensures Value(Digits(v, base), base) == v && Canonical(Digits(v, base), base)
    decreases v
  {
    if v > 0 {
      Shrinks(v, base);
      DigitsValue(v / base, base);
      ConsStep(v, v / base, v % base, Digits(v / base, base), base);
    }
  }

  lemma ConsStep(v: nat, q: nat, r: nat, d: seq<nat>, base: nat)
    requires v > 0 && r < base && v == q * base + r && Value(d, base) == q && Canonical(d, base)
    ensures Value([r] + d, base) == v && Canonical([r] + d, base)
  {
    ConsValue(r, d, base);
  }

  lemma ConsValue(x: nat, d: seq<nat>, base: nat)
    ensures Value([x] + d, base) == x + base * Value(d, base)
    ensures x < base && Canonical(d, base) && (d == [] ==> x != 0) ==> Canonical([x] + d, base)
  {
    assert ([x] + d)[1..] == d;
  }

  /** Canonical digits are the digits of their value. */
  lemma {:induction false} ValueDigits(d: seq<nat>, base: nat)
    requires base >= 2 && Canonical(d, base)
    ensures Digits(Value(d, base), base) == d
    decreases |d|
  {
    if d != [] {
      var w := Value(d[1..], base);
      assert |d| > 1 ==> d[1..][|d| - 2] == d[|d| - 1];
      ValueDigits(d[1..], base);
      RemainderIs(d[0] + base * w, base, w, d[0]);
      assert Value(d, base) > 0 by { if w > 0 { ProductMonotone(1, w, base); } }
    }
  }

  // -------------------------------------------------- multiply and add in place

  /** `b = b * m + carry` digit by digit. */
  function Pass(d: seq<nat>, carry: nat, m: nat, base: nat): seq<nat>
    requires base >= 2
    decreases |d|
  {
    if d == [] then Digits(carry, base)
    else
      var n := carry + m * d[0];
      [n % base] + Pass(d[1..], n / base, m, base)
  }

  lemma Spread(m: int, q: int, r: int, base: int)
    ensures m * (q * base + r) == (m * q) * base + m * r
  {
    assert m * (q * base) == (m * q) * base;
  }

  lemma CarryOver(m: int, q: int, r: int, base: int, carry: int, c: int, rest: int)
    requires carry + m * r == c * base + rest
    ensures m * (q * base + r) + carry == (m * q + c) * base + rest
  {
    Spread(m, q, r, base);
    assert (m * q + c) * base == (m * q) * base + c * base;
  }

  /** The lowest digit and the carry of a product. */
  lemma PassStep(v: nat, carry: nat, m: nat, base: nat) returns (q: nat, r: nat, n: nat, c: nat, x: nat)
    requires base >= 2 && v > 0 && m > 0
    ensures q < v && Digits(v, base) == [r] + Digits(q, base)
    ensures n == carry + m * r && c == n / base && x == m * v + carry
    ensures x > 0 && x % base == n % base && x / base == m * q + c
  {
    Shrinks(v, base);
    q, r := v / base, v % base;
    n, x := carry + m * r, m * v + carry;
    c := n / base;
    CarryOver(m, q, r, base, carry, c, n % base);
    RemainderIs(x, base, m * q + c, n % base);
    ProductMonotone(1, m, v);
  }

  lemma PassCons(x: nat, d: seq<nat>, carry: nat, m: nat, base: nat)
    requires base >= 2
    ensures var n := carry + m * x; Pass([x] + d, carry, m, base) == [n % base] + Pass(d, n / base, m, base)
  {
    assert ([x] + d)[1..] == d;
  }

  lemma DigitsCons(x: nat, base: nat)
    requires base >= 2 && x > 0
    ensures Digits(x, base) == [x % base] + Digits(x / base, base)
  {}

  lemma {:induction false} PassDigits(v: nat, carry: nat, m: nat, base: nat)
    requires base >= 2 && m > 0
    ensures Pass(Digits(v, base), carry, m, base) == Digits(m * v + carry, base)
    decreases v
  {
    if v > 0 {
      var q, r, n, c, x := PassStep(v, carry, m, base);
      PassDigits(q, c, m, base);
      PassCombine(q, r, carry, m, base, n, c, x);
    } else {
      assert m * 0 == 0;
    }
  }

  lemma PassCombine(q: nat, r: nat, carry: nat, m: nat, base: nat, n: nat, c: nat, x: nat)
    requires base >= 2 && n == carry + m * r && c == n / base && x > 0 && x % base == n % base && x / base == m * q + c
    requires Pass(Digits(q, base), c, m, base) == Digits(m * q + c, base)
    ensures Pass([r] + Digits(q, base), carry, m, base) == Digits(x, base)
  {
    PassCons(r, Digits(q, base), carry, m, base);
    DigitsCons(x, base);
  }

  // -------------------------------------------------------------- buffer sizes

  function Pow(b: nat, n: nat): nat { if n == 0 then 1 else b * Pow(b, n - 1) }

  lemma {:induction false} PowPositive(b: nat, n: nat)
    requires b > 0
    ensures Pow(b, n) > 0
  {
    if n > 0 { PowPositive(b, n - 1); ProductMonotone(1, b, Pow(b, n - 1)); }
  }

  lemma {:induction false} PowAdd(b: nat, m: nat, n: nat)
    ensures Pow(b, m + n) == Pow(b, m) * Pow(b, n)
    decreases m
  {
    if m > 0 {
      PowAdd(b, m - 1, n);
      Associate(b, Pow(b, m - 1), Pow(b, n));
    }
  }

  lemma Associate(x: int, y: int, z: int)
    ensures x * (y * z) == (x * y) * z
  {}

  lemma {:induction false} PowPow(b: nat, m: nat, n: nat)
    ensures Pow(Pow(b, m), n) == Pow(b, m * n)
    decreases n
  {
    if n > 0 {
      PowPow(b, m, n - 1);
      PowAdd(b, m, m * (n - 1));
      assert m * n == m + m * (n - 1);
    } else {
      assert m * 0 == 0;
    }
  }

  lemma {:induction false} PowMonotone(a: nat, b: nat, n: nat)
    requires a <= b
    ensures Pow(a, n) <= Pow(b, n)
  {
    if n > 0 {
      PowMonotone(a, b, n - 1);
      ProductMonotone(a, b, Pow(a, n - 1));
      ProductMonotone(Pow(a, n - 1), Pow(b, n - 1), b);
    }
  }

  lemma {:induction false} PowRises(b: nat, m: nat, n: nat)
    requires b >= 2 && m < n
    ensures Pow(b, m) < Pow(b, n)
    decreases n
  {
    PowPositive(b, n - 1);
    ProductMonotone(2, b, Pow(b, n - 1));
    if m < n - 1 { PowRises(b, m, n - 1); }
  }

  /** If n q digits of base a fit in fewer than size q digits of base b, then n fit in size. */
  lemma Fits(a: nat, b: nat, n: nat, size: nat, q: nat, np: nat, nq: nat, sq: nat)
    requires b >= 2 && nq == n * q && sq == size * q && np < sq && Pow(a, nq) <= Pow(b, np)
    ensures Pow(a, n) < Pow(b, size)
  {
    PowRises(b, np, sq);
    PowPow(a, n, q);
    PowPow(b, size, q);
    PowReflect(Pow(a, n), Pow(b, size), q);
  }

  lemma PowScale(a: nat, b: nat, p: nat, q: nat, n: nat)
    requires Pow(a, q) <= Pow(b, p)
    ensures Pow(a, n * q) <= Pow(b, n * p)
  {
    PowMonotone(Pow(a, q), Pow(b, p), n);
    PowPow(a, q, n);
    PowPow(b, p, n);
    assert q * n == n * q && p * n == n * p;
  }

  lemma PowReflect(x: nat, y: nat, q: nat)
    requires Pow(x, q) < Pow(y, q)
    ensures x < y
  {
    if y <= x { PowMonotone(y, x, q); }
  }

  /** 256^100 < 58^138, from 256^8 < 58^11 and 256^4 < 58^6. */
  lemma EncodeBound()
    ensures Pow(256, 100) <= Pow(58, 138)
  {
    assert Pow(58, 2) == 3364;
    PowAdd(58, 2, 2);
    PowAdd(58, 4, 2);
    PowAdd(58, 6, 4);
    PowAdd(58, 10, 1);
    assert Pow(58, 1) == 58;
    assert Pow(256, 2) == 65536;
    PowAdd(256, 2, 2);
    PowAdd(256, 4, 4);
    assert Pow(256, 8) == 18446744073709551616 < 24986644000165537792 == Pow(58, 11);
    PowScale(256, 58, 11, 8, 12);
    PowAdd(256, 96, 4);
    PowAdd(58, 132, 6);
    ProductMonotone(Pow(256, 96), Pow(58, 132), Pow(256, 4));
    ProductMonotone(Pow(256, 4), Pow(58, 6), Pow(58, 132));
  }

  // 58^71 < 256^52, by repeated squaring.

  lemma Pow58To4()
    ensures Pow(58, 4) == 11316496
  {
    assert Pow(58, 2) == 3364;
    PowAdd(58, 2, 2);
  }

  lemma Pow58To8()
    ensures Pow(58, 8) == 128063081718016
  {
    Pow58To4();
    PowAdd(58, 4, 4);
  }

  lemma Pow58To16()
    ensures Pow(58, 16) == 16400152899115243850138976256
  {
    Pow58To8();
    PowAdd(58, 8, 8);
  }

  lemma Pow58To32()
    ensures Pow(58, 32) == 268965015114358137726910587140455987105619365599731777536
  {
    Pow58To16();
    PowAdd(58, 16, 16);
  }

  lemma Pow58To64()
    ensures Pow(58, 64) ==
      0x7853026ae25f4ce0c69893e6f1f86f67aef4db69563516064adeb967a9d66f4fe64b09ec94e5010000000000000000
  {
    Pow58To32();
    PowAdd(58, 32, 32);
  }

  lemma Pow58To71()
    ensures Pow(58, 71) ==
      0xf1a10f76073f997e1af0b37f5c795ecf145633452837a5de3fa17ac74b86f60a0ebe5446f358940a4ca12a800000000000000000
  {
    Pow58To4();
    Pow58To64();
    assert Pow(58, 3) == 195112;
    PowAdd(58, 4, 3);
    PowAdd(58, 64, 7);
  }

  lemma Pow256To4()
    ensures Pow(256, 4) == 4294967296
  {
    assert Pow(256, 2) == 65536;
    PowAdd(256, 2, 2);
  }

  lemma Pow256To8()
    ensures Pow(256, 8) == 18446744073709551616
  {
    Pow256To4();
    PowAdd(256, 4, 4);
  }

  lemma Pow256To16()
    ensures Pow(256, 16) == 340282366920938463463374607431768211456
  {
    Pow256To8();
    PowAdd(256, 8, 8);
  }

  lemma Pow256To32()
    ensures Pow(256, 32) == 115792089237316195423570985008687907853269984665640564039457584007913129639936
  {
    Pow256To16();
    PowAdd(256, 16, 16);
  }

  lemma Pow256To52()
    ensures Pow(256, 52) ==
      0x100000000000000000000000000000000000000000000000000000000000000000000000000000000000000000000000000000000
  {
    Pow256To4();
    Pow256To16();
    Pow256To32();
    PowAdd(256, 16, 4);
    PowAdd(256, 32, 20);
  }

  lemma Bound71()
    ensures Pow(58, 71) <= Pow(256, 52)
  {
    Pow58To71();
    Pow256To52();
  }

  /** 58^1000 < 256^733, from 58^71 < 256^52 and 58^6 < 256^5. */
  lemma DecodeBound()
    ensures Pow(58, 1000) <= Pow(256, 733)
  {
    Bound71();
    PowScale(58, 256, 52, 71, 14);
    PowAdd(58, 994, 6);
    PowAdd(256, 728, 5);
    SixDigits();
    ProductMonotone(Pow(58, 994), Pow(256, 728), Pow(58, 6));
    ProductMonotone(Pow(58, 6), Pow(256, 5), Pow(256, 728));
  }

  lemma SixDigits()
    ensures Pow(58, 6) <= Pow(256, 5)
  {
    assert Pow(58, 2) == 3364 && Pow(256, 2) == 65536 && Pow(256, 1) == 256;
    PowAdd(58, 2, 2);
    PowAdd(58, 4, 2);
    PowAdd(256, 2, 2);
    PowAdd(256, 4, 1);
  }

  /** A number below a power of the base has no more digits than that. */
  lemma {:induction false} DigitCount(v: nat, base: nat, n: nat)
    requires base >= 2 && v < Pow(base, n)
    ensures |Digits(v, base)| <= n
    decreases n
  {
    if v > 0 {
      Shrinks(v, base);
      if n > 0 {
        assert v / base < Pow(base, n - 1) by { QuotientBelow(v, base, Pow(base, n - 1)); }
        DigitCount(v / base, base, n - 1);
      }
    }
  }

  lemma QuotientBelow(v: nat, base: nat, p: nat)
    requires base > 0 && v < base * p
    ensures v / base < p
  {
    assert v == v / base * base + v % base;
    if v / base >= p { ProductMonotone(p, v / base, base); }
  }

  lemma {:induction false} ValueBelow(d: seq<nat>, base: nat)
    requires DigitsOf(d, base)
    ensures Value(d, base) < Pow(base, |d|)
    decreases |d|
  {
    if d != [] {
      ValueBelow(d[1..], base);
      var w, p := Value(d[1..], base), Pow(base, |d| - 1);
      ProductMonotone(w + 1, p, base);
      assert (w + 1) * base == base * w + base;
    }
  }

  lemma PowUpTo(b: nat, m: nat, n: nat)
    requires b >= 2 && m <= n
    ensures Pow(b, m) <= Pow(b, n)
  {
    if m < n { PowRises(b, m, n); }
  }

  /** The buffer of the decoder, and that of the encoder, always hold the result. */
  lemma DecodeFits(d: seq<nat>, n: nat, size: nat)
    requires DigitsOf(d, 58) && |d| <= n && size == n * 733 / 1000 + 1
    ensures |Digits(Value(d, 58), 256)| <= size
  {
    DecodeBound();
    PowScale(58, 256, 733, 1000, n);
    Fits(58, 256, n, size, 1000, n * 733, n * 1000, size * 1000);
    ValueBelow(d, 58);
    PowUpTo(58, |d|, n);
    DigitCount(Value(d, 58), 256, size);
  }

  lemma EncodeFits(d: seq<nat>, n: nat, size: nat)
    requires DigitsOf(d, 256) && |d| <= n && size == n * 138 / 100 + 1
    ensures |Digits(Value(d, 256), 58)| <= size
  {
    EncodeBound();
    PowScale(256, 58, 138, 100, n);
    Fits(256, 58, n, size, 100, n * 138, n * 100, size * 100);
    ValueBelow(d, 256);
    PowUpTo(256, |d|, n);
    DigitCount(Value(d, 256), 58, size);
  }

  // ------------------------------------------------------------ the characters

  /** "123456789ABCDEFGHJKLMNPQRSTUVWXYZabcdefghijkmnopqrstuvwxyz", run by run. */
  function CharOf(d: nat): char
    requires d < 58
  {
    if d < 9 then ('1' as int + d) as char
    else if d < 17 then ('A' as int + d - 9) as char
    else if d < 22 then ('J' as int + d - 17) as char
    else if d < 33 then ('P' as int + d - 22) as char
    else if d < 44 then ('a' as int + d - 33) as char
    else ('m' as int + d - 44) as char
  }

  function DigitOf(c: char): int {
    if '1' <= c <= '9' then c as int - '1' as int
    else if 'A' <= c <= 'H' then c as int - 'A' as int + 9
    else if 'J' <= c <= 'N' then c as int - 'J' as int + 17
    else if 'P' <= c <= 'Z' then c as int - 'P' as int + 22
    else if 'a' <= c <= 'k' then c as int - 'a' as int + 33
    else if 'm' <= c <= 'z' then c as int - 'm' as int + 44
    else -1
  }

  predicate IsSpace(c: char) { c == ' ' || 9 <= c as int <= 13 }

  lemma CharDigit(d: nat)
    requires d < 58
    ensures DigitOf(CharOf(d)) == d && !IsSpace(CharOf(d)) && CharOf(d) as int != 0 && (CharOf(d) == '1' <==> d == 0)
  {}

  lemma DigitChar(c: char)
    ensures -1 <= DigitOf(c) < 58 && (DigitOf(c) != -1 ==> CharOf(DigitOf(c)) == c && !IsSpace(c) && c as int != 0)
    ensures c == '1' <==> DigitOf(c) == 0
  {}

  // ------------------------------------------------------------ both directions

  function Reverse<T>(s: seq<T>): (r: seq<T>)
    ensures |r| == |s|
  {
    if s == [] then [] else Reverse(s[1..]) + [s[0]]
  }

  lemma {:induction false} ReverseAt<T>(s: seq<T>, i: nat)
    requires i < |s|
    ensures Reverse(s)[i] == s[|s| - 1 - i]
  {
    if i < |s| - 1 { ReverseAt(s[1..], i); }
  }

  lemma ReverseTwice<T>(s: seq<T>)
    ensures Reverse(Reverse(s)) == s
  {
    forall i | 0 <= i < |s| ensures Reverse(Reverse(s))[i] == s[i] {
      ReverseAt(Reverse(s), i);
      ReverseAt(s, |s| - 1 - i);
    }
  }

  lemma ReversePush<T>(s: seq<T>, x: T)
    ensures Reverse(s + [x]) == [x] + Reverse(s)
  {
    forall i | 0 <= i <= |s| ensures Reverse(s + [x])[i] == ([x] + Reverse(s))[i] {
      ReverseAt(s + [x], i);
      if i > 0 { ReverseAt(s, i - 1); }
    }
  }

  lemma ReverseEnds<T>(d: seq<T>)
    ensures d != [] ==> Reverse(d)[|d| - 1] == d[0] && Reverse(d)[0] == d[|d| - 1]
  {
    if d != [] {
      ReverseAt(d, 0);
      ReverseAt(d, |d| - 1);
    }
  }

  lemma {:induction false} ReverseDigits(d: seq<nat>, base: nat)
    requires DigitsOf(d, base)
    ensures DigitsOf(Reverse(d), base)
  {
    if d != [] { ReverseDigits(d[1..], base); }
  }

  /** The number a digit list stands for, most significant first. */
  function Number(d: seq<nat>, base: nat): nat { Value(Reverse(d), base) }

  lemma NumberPush(d: seq<nat>, x: nat, base: nat)
    ensures Number(d + [x], base) == base * Number(d, base) + x
  {
    ReversePush(d, x);
    ConsValue(x, Reverse(d), base);
  }

  /** Digits that do not start with 0 are recovered from their number. */
  lemma NumberDigits(d: seq<nat>, base: nat)
    requires base >= 2 && DigitsOf(d, base) && (d != [] ==> d[0] != 0)
    ensures Reverse(Digits(Number(d, base), base)) == d
  {
    ReverseDigits(d, base);
    ReverseEnds(d);
    ValueDigits(Reverse(d), base);
    ReverseTwice(d);
  }

  lemma DigitsNumber(v: nat, base: nat)
    requires base >= 2
    ensures var d := Reverse(Digits(v, base)); Number(d, base) == v && DigitsOf(d, base) && (d != [] ==> d[0] != 0)
  {
    DigitsValue(v, base);
    ReverseTwice(Digits(v, base));
    ReverseDigits(Digits(v, base), base);
    ReverseEnds(Digits(v, base));
  }

  function LeadingZeros(d: seq<nat>): (z: nat)
    ensures z <= |d| && (forall i :: 0 <= i < z ==> d[i] == 0) && (z < |d| ==> d[z] != 0)
  {
    if d == [] || d[0] != 0 then 0 else 1 + LeadingZeros(d[1..])
  }

  lemma {:induction false} LeadingZerosAre(z: nat, d: seq<nat>)
    requires d != [] ==> d[0] != 0
    ensures LeadingZeros(Zeros(z) + d) == z && (Zeros(z) + d)[z..] == d
  {
    if z > 0 {
      LeadingZerosAre(z - 1, d);
      assert (Zeros(z) + d)[1..] == Zeros(z - 1) + d;
    } else {
      assert Zeros(0) + d == d;
    }
  }

  function Zeros(n: nat): (r: seq<nat>)
    ensures |r| == n && forall i :: 0 <= i < n ==> r[i] == 0
  {
    seq(n, _ => 0)
  }

  /** A digit list in one base turned into the other, leading zeros kept. */
  function Convert(d: seq<nat>, from: nat, to: nat): seq<nat>
    requires to >= 2
  {
    var z := LeadingZeros(d);
    Zeros(z) + Reverse(Digits(Number(d[z..], from), to))
  }

  /** Converting there and back is the identity, whatever the two bases. */
  lemma ConvertBack(d: seq<nat>, from: nat, to: nat)
    requires from >= 2 && to >= 2 && DigitsOf(d, from)
    ensures DigitsOf(Convert(d, from, to), to) && Convert(Convert(d, from, to), to, from) == d
  {
    var z := LeadingZeros(d);
    var body := d[z..];
    var v := Number(body, from);
    DigitsNumber(v, to);
    LeadingZerosAre(z, Reverse(Digits(v, to)));
    NumberDigits(body, from);
    assert Zeros(z) + body == d;
  }

  // ------------------------------------------------------------------ the text

  function Text(d: seq<nat>): (r: string)
    requires DigitsOf(d, 58)
    ensures |r| == |d| && forall i :: 0 <= i < |d| ==> r[i] == CharOf(d[i])
  {
    if d == [] then "" else [CharOf(d[0])] + Text(d[1..])
  }

  predicate AllDigits(t: string) { forall i :: 0 <= i < |t| ==> DigitOf(t[i]) != -1 }

  function DigitsIn(t: string): (r: seq<nat>)
    requires AllDigits(t)
    ensures |r| == |t| && DigitsOf(r, 58) && forall i :: 0 <= i < |t| ==> r[i] == DigitOf(t[i])
  {
    if t == "" then [] else DigitChar(t[0]); [DigitOf(t[0])] + DigitsIn(t[1..])
  }

  lemma TextOfDigits(t: string)
    requires AllDigits(t)
    ensures Text(DigitsIn(t)) == t
  {
    forall i | 0 <= i < |t| ensures Text(DigitsIn(t))[i] == t[i] { DigitChar(t[i]); }
  }

  lemma DigitsOfText(d: seq<nat>)
    requires DigitsOf(d, 58)
    ensures AllDigits(Text(d)) && DigitsIn(Text(d)) == d && forall i :: 0 <= i < |d| ==>
        !IsSpace(Text(d)[i]) &&
        Text(d)[i] as int != 0
  {
    forall i | 0 <= i < |d| ensures DigitOf(Text(d)[i]) == d[i] && !IsSpace(Text(d)[i]) && Text(d)[i] as int != 0 {
      CharDigit(d[i]);
    }
  }

  /** The first position from `i` on that is not a space, that is a space, and that is not a '1'. */
  function SkipSpaces(t: string, i: nat): (r: nat)
    requires i <= |t|
    ensures i <= r <= |t| && (r < |t| ==> !IsSpace(t[r])) && forall k :: i <= k < r ==> IsSpace(t[k])
    decreases |t| - i
  {
    if i == |t| || !IsSpace(t[i]) then i else SkipSpaces(t, i + 1)
  }

  function SkipWord(t: string, i: nat): (r: nat)
    requires i <= |t|
    ensures i <= r <= |t| && (r < |t| ==> IsSpace(t[r])) && forall k :: i <= k < r ==> !IsSpace(t[k])
    decreases |t| - i
  {
    if i == |t| || IsSpace(t[i]) then i else SkipWord(t, i + 1)
  }

  function SkipOnes(t: string, i: nat): (r: nat)
    requires i <= |t|
    ensures i <= r <= |t| && (r < |t| ==> t[r] != '1') && forall k :: i <= k < r ==> t[k] == '1'
    decreases |t| - i
  {
    if i == |t| || t[i] != '1' then i else SkipOnes(t, i + 1)
  }

  /** The text without the spaces around it, if nothing but spaces follows the first word. */
  function Trimmed(t: string): Option<string> {
    var a := SkipSpaces(t, 0);
    var w := SkipWord(t, a);
    if SkipSpaces(t, w) == |t| then Some(t[a..w]) else None
  }

  function EncodeSpec(bytes: seq<nat>): string
    requires DigitsOf(bytes, 256)
  {
    ConvertBack(bytes, 256, 58);
    Text(Convert(bytes, 256, 58))
  }

  /** Decoding succeeds exactly for a word of valid characters, with spaces around it, whose bytes
      are not too many; a text with no characters to check passes any limit. */
  function DecodeSpec(t: string, maxLen: int): Option<seq<nat>> {
    if HasNul(t) then None else DecodeTrimmed(Trimmed(t), maxLen)
  }

  predicate HasNul(t: string) { exists i :: 0 <= i < |t| && t[i] as int == 0 }

  function DecodeTrimmed(word: Option<string>, maxLen: int): Option<seq<nat>> {
    if word.None? then None else DecodeWord(word.value, maxLen)
  }

  function DecodeWord(word: string, maxLen: int): Option<seq<nat>> {
    if !AllDigits(word) then None
    else
      var bytes := Convert(DigitsIn(word), 58, 256);
      if word != "" && |bytes| > maxLen then None else Some(bytes)
  }

  /** Decoding inverts encoding for every byte string. */
  lemma DecodeEncode(bytes: seq<nat>, maxLen: int)
    requires DigitsOf(bytes, 256)
    ensures DecodeSpec(EncodeSpec(bytes), maxLen) == if bytes != [] && |bytes| > maxLen then None else Some(bytes)
  {
    var t := EncodeSpec(bytes);
    EncodedWord(bytes, maxLen);
    WholeWord(t);
    assert Trimmed(t) == Some(t);
  }

  lemma EncodedWord(bytes: seq<nat>, maxLen: int)
    requires DigitsOf(bytes, 256)
    ensures DecodeWord(EncodeSpec(bytes), maxLen) == if bytes != [] && |bytes| > maxLen then None else Some(bytes)
    ensures var t := EncodeSpec(bytes); forall i :: 0 <= i < |t| ==> !IsSpace(t[i]) && t[i] as int != 0
  {
    ConvertBack(bytes, 256, 58);
    EmptyConvert(bytes, 256, 58);
    DigitsOfText(Convert(bytes, 256, 58));
  }

  lemma WholeWord(t: string)
    requires forall i :: 0 <= i < |t| ==> !IsSpace(t[i])
    ensures Trimmed(t) == Some(t)
  {
    assert SkipSpaces(t, 0) == 0 && SkipWord(t, 0) == |t| && SkipSpaces(t, |t|) == |t|;
    assert t[0..|t|] == t;
  }

  lemma EmptyConvert(d: seq<nat>, from: nat, to: nat)
    requires from >= 2 && to >= 2 && DigitsOf(d, from)
    ensures Convert(d, from, to) == [] <==> d == []
  {
    ConvertBack(d, from, to);
    assert LeadingZeros([]) == 0 && Number([], from) == 0 && Number([], to) == 0;
  }

  /** Encoding inverts decoding, up to the spaces around the text. */
  lemma EncodeDecode(t: string, maxLen: int)
    requires DecodeSpec(t, maxLen).Some?
    ensures DigitsOf(DecodeSpec(t, maxLen).value, 256) && Trimmed(t) == Some(EncodeSpec(DecodeSpec(t, maxLen).value))
  {
    var word := Trimmed(t).value;
    ConvertBack(DigitsIn(word), 58, 256);
    TextOfDigits(word);
  }

  // ---------------------------------------------------------------- the loops

  /** A buffer that holds a number in its first `length` places. */
  predicate Holds(b: seq<nat>, length: nat, v: nat, base: nat)
    requires base >= 2
  {
    length <= |b| && b[..length] == Digits(v, base) && forall k :: length <= k < |b| ==> b[k] == 0
  }

  function Rest(b: seq<nat>, i: nat, length: nat): seq<nat>
    requires length <= |b|
  {
    if i < length then b[i..length] else []
  }

  /** One place of the pass: the sum, the digit stored and the carry left. */
  function Sum(carry: nat, m: nat, x: nat): nat { carry + m * x }
  function Low(n: nat, base: nat): nat requires base >= 2 { n % base }
  function High(n: nat, base: nat): nat requires base >= 2 { n / base }

  lemma MultiplyStep(b: seq<nat>, i: nat, length: nat, carry: nat, m: nat, base: nat)
    requires base >= 2 && length <= |b| && i < |b| && (i < length || carry != 0) && (i >= length ==> b[i] == 0)
    ensures var n := Sum(carry, m, b[i]);
      Pass(Rest(b, i, length), carry, m, base) == [Low(n, base)] + Pass(Rest(b, i + 1, length), High(n, base), m, base)
  {
    if i < length {
      assert Rest(b, i, length) == [b[i]] + Rest(b, i + 1, length);
      PassCons(b[i], Rest(b, i + 1, length), carry, m, base);
    } else {
      assert m * 0 == 0;
      DigitsCons(carry, base);
    }
  }

  /** The pass has been done up to place `i`, with a carry left. */
  predicate Halfway(b: seq<nat>, b0: seq<nat>, i: nat, length: nat, carry: nat, m: nat, base: nat, goal: seq<nat>)
    requires base >= 2
  {
    && i <= |b| == |b0| && length <= |b0| && (forall k :: i <= k < |b| ==> b[k] == b0[k])
    && b[..i] + Pass(Rest(b0, i, length), carry, m, base) == goal
  }

  lemma HalfwayStep(b: seq<nat>, b0: seq<nat>, i: nat, length: nat, carry: nat, m: nat, base: nat, goal: seq<nat>)
    requires base >= 2 && Halfway(b, b0, i, length, carry, m, base, goal)
    requires i < |b| && (i < length || carry != 0) && (i >= length ==> b[i] == 0)
    ensures var n := Sum(carry, m, b[i]);
      Halfway(b[i := Low(n, base)], b0, i + 1, length, High(n, base), m, base, goal)
  {
    MultiplyStep(b0, i, length, carry, m, base);
    var n := Sum(carry, m, b[i]);
    assert b[i := Low(n, base)][..i + 1] == b[..i] + [Low(n, base)];
    Extend(b[..i], Low(n, base), Pass(Rest(b0, i + 1, length), High(n, base), m, base));
  }

  lemma PassEmpty(d: seq<nat>, carry: nat, m: nat, base: nat)
    requires base >= 2
    ensures Pass(d, carry, m, base) == [] <==> d == [] && carry == 0
  {}

  /** `b = b * m + carry` in place; no carry is left at the end. */
  method MultiplyAdd(
      b0: seq<nat>, length0: nat, carry0: nat, m: nat, base: nat, ghost v: nat) returns (b: seq<nat>, length: nat)
    requires base >= 2 && m > 0 && Holds(b0, length0, v, base) && |Digits(m * v + carry0, base)| <= |b0|
    ensures |b| == |b0| && Holds(b, length, m * v + carry0, base)
  {
    ghost var goal := Digits(m * v + carry0, base);
    PassDigits(v, carry0, m, base);
    b := b0;
    var carry: nat, i: nat := carry0, 0;
    assert Rest(b0, 0, length0) == Digits(v, base);
    while (carry != 0 || i < length0) && i < |b|
      invariant Halfway(b, b0, i, length0, carry, m, base, goal)
    {
      HalfwayStep(b, b0, i, length0, carry, m, base, goal);
      var n := Sum(carry, m, b[i]);
      b := b[i := Low(n, base)];
      carry := High(n, base);
      i := i + 1;
    }
    PassEmpty(Rest(b0, i, length0), carry, m, base);
    assert carry == 0 && b[..i] == goal;
    length := i;
  }

  lemma Extend(a: seq<nat>, x: nat, c: seq<nat>)
    ensures a + ([x] + c) == a + [x] + c
  {}

  /** `EncodeBase58`; the result never starts with a zero digit of its own, so none is skipped. */
  method EncodeBase58(bytes: seq<nat>) returns (t: string)
    requires DigitsOf(bytes, 256)
    ensures t == EncodeSpec(bytes)
  {
    var z := LeadingZeros(bytes);
    var body := bytes[z..];
    var size := |body| * 138 / 100 + 1;
    var b, length: nat, i := Zeros(size), 0, 0;
    while i < |body|
      invariant i <= |body| && |b| == size && Holds(b, length, Number(body[..i], 256), 58)
    {
      assert body[..i + 1] == body[..i] + [body[i]];
      NumberPush(body[..i], body[i], 256);
      ReverseDigits(body[..i + 1], 256);
      EncodeFits(Reverse(body[..i + 1]), |body|, size);
      b, length := MultiplyAdd(b, length, body[i], 256, 58, Number(body[..i], 256));
      i := i + 1;
    }
    assert body[..i] == body;
    ConvertBack(bytes, 256, 58);
    assert Convert(bytes, 256, 58) == Zeros(z) + Reverse(b[..length]);
    t := Text(Zeros(z) + Reverse(b[..length]));
  }

  lemma {:induction false} MoreDigits(v: nat, w: nat, base: nat)
    requires base >= 2 && v <= w
    ensures |Digits(v, base)| <= |Digits(w, base)|
    decreases w
  {
    if v > 0 {
      Shrinks(v, base);
      Shrinks(w, base);
      QuotientMonotone(v / base, v % base, w / base, w % base, base);
      MoreDigits(v / base, w / base, base);
    }
  }

  lemma QuotientMonotone(q: nat, r: nat, p: nat, s: nat, base: nat)
    requires r < base && s < base && q * base + r <= p * base + s
    ensures q <= p
  {
    Multiple(base, q - p);
    assert (q - p) * base == q * base - p * base;
  }

  lemma {:induction false} PrefixNumber(d: seq<nat>, i: nat, base: nat)
    requires i <= |d| && base >= 1
    ensures Number(d[..i], base) <= Number(d, base)
    decreases |d| - i
  {
    if i < |d| {
      assert d[..i + 1] == d[..i] + [d[i]];
      NumberPush(d[..i], d[i], base);
      ProductMonotone(1, base, Number(d[..i], base));
      PrefixNumber(d, i + 1, base);
    } else {
      assert d[..i] == d;
    }
  }

  /** Leading ones belong to the word. */
  lemma {:induction false} WordAfterOnes(t: string, i: nat)
    requires i <= |t|
    ensures SkipWord(t, i) == SkipWord(t, SkipOnes(t, i))
    decreases |t| - i
  {
    if i < |t| && t[i] == '1' { WordAfterOnes(t, i + 1); }
  }

  lemma OnesAreZeros(z: nat, word: string, body: string)
    requires |word| == z + |body| && AllDigits(word) && word[z..] == body
    requires (forall i :: 0 <= i < z ==> word[i] == '1') && (body != "" ==> body[0] != '1')
    ensures AllDigits(body)
    ensures Convert(DigitsIn(word), 58, 256) == Zeros(z) + Reverse(Digits(Number(DigitsIn(body), 58), 256))
  {
    forall i | 0 <= i < |body| ensures body[i] == word[z + i] {}
    var d := DigitsIn(body);
    if body != "" { DigitChar(body[0]); }
    forall i | 0 <= i < |word| ensures DigitsIn(word)[i] == (Zeros(z) + d)[i] {
      if i < z { DigitChar(word[i]); }
    }
    assert DigitsIn(word) == Zeros(z) + d;
    LeadingZerosAre(z, d);
  }

  lemma DecodeNext(body: string, x: char, n: nat, size: nat)
    requires AllDigits(body) && DigitOf(x) != -1 && |body| < n && size == n * 733 / 1000 + 1
    ensures AllDigits(body + [x])
    ensures var v, w := Number(DigitsIn(body), 58), Number(DigitsIn(body + [x]), 58);
      w == 58 * v + DigitOf(x) && |Digits(w, 256)| <= size
  {
    DigitChar(x);
    var d, e := DigitsIn(body), DigitsIn(body + [x]);
    assert e == d + [DigitOf(x)];
    NumberPush(d, DigitOf(x), 58);
    ReverseDigits(e, 58);
    DecodeFits(Reverse(e), n, size);
  }

  /** More bytes than allowed already for a prefix means more for the whole. */
  lemma TooLong(body: string, i: nat)
    requires i <= |body| && AllDigits(body)
    ensures |Digits(Number(DigitsIn(body[..i]), 58), 256)| <= |Digits(Number(DigitsIn(body), 58), 256)|
  {
    var d := DigitsIn(body);
    assert DigitsIn(body[..i]) == d[..i];
    PrefixNumber(d, i, 58);
    MoreDigits(Number(d[..i], 58), Number(d, 58), 256);
  }

  /** The specification for `z` leading ones and what follows them. */
  function DecodeBody(body: string, z: nat, maxLen: int): Option<seq<nat>> {
    if !AllDigits(body) then None
    else
      var bytes := Digits(Number(DigitsIn(body), 58), 256);
      if z + |body| > 0 && z + |bytes| > maxLen then None else Some(Zeros(z) + Reverse(bytes))
  }

  lemma SameDigits(z: nat, word: string, body: string)
    requires |word| == z + |body| && word[z..] == body && forall i :: 0 <= i < z ==> word[i] == '1'
    ensures AllDigits(word) <==> AllDigits(body)
  {
    forall i | 0 <= i < |body| ensures body[i] == word[z + i] {}
    if AllDigits(body) {
      forall i | 0 <= i < |word| ensures DigitOf(word[i]) != -1 { assert i >= z ==> word[i] == body[i - z]; }
    }
  }

  /** A word of `z` leading ones and a body that does not start with another. */
  ghost predicate OnesFirst(z: nat, word: string, body: string) {
    && |word| == z + |body| && word[z..] == body
    && (forall i :: 0 <= i < z ==> word[i] == '1') && (body != "" ==> body[0] != '1')
  }

  lemma WordParts(z: nat, word: string, body: string, maxLen: int)
    requires OnesFirst(z, word, body)
    ensures DecodeWord(word, maxLen) == DecodeBody(body, z, maxLen)
  {
    SameDigits(z, word, body);
    if AllDigits(word) { OnesAreZeros(z, word, body); }
  }

  lemma TrimmedIs(t: string, a: nat, s: nat, w: nat)
    requires a == SkipSpaces(t, 0) && s == SkipOnes(t, a) && w == SkipWord(t, s)
    ensures Trimmed(t) == if SkipSpaces(t, w) == |t| then Some(t[a..w]) else None
  {
    WordAfterOnes(t, a);
  }

  lemma OnesThenBody(t: string, a: nat, s: nat, w: nat, word: string, body: string)
    requires a <= s <= w <= |t| && word == t[a..w] && body == t[s..w]
    requires (forall k :: a <= k < s ==> t[k] == '1') && (s < |t| ==> t[s] != '1')
    ensures OnesFirst(s - a, word, body)
  {}

  lemma TrimmedDecodes(word: string, ok: bool, trimmed: Option<string>, maxLen: int, r: Option<seq<nat>>)
    requires trimmed == (if ok then Some(word) else None) && r == DecodeWord(word, maxLen)
    ensures DecodeTrimmed(trimmed, maxLen) == if ok then r else None
  {}

  lemma WholeIs(
      z: nat, word: string, body: string, ok: bool, trimmed: Option<string>, maxLen: int, r: Option<seq<nat>>)
    requires OnesFirst(z, word, body) && trimmed == (if ok then Some(word) else None)
    requires r == DecodeBody(body, z, maxLen)
    ensures DecodeTrimmed(trimmed, maxLen) == if ok then r else None
  {
    WordParts(z, word, body, maxLen);
    TrimmedDecodes(word, ok, trimmed, maxLen, r);
  }

  lemma Positions(t: string, a: nat, s: nat, w: nat, word: string, body: string)
    requires a == SkipSpaces(t, 0) && s == SkipOnes(t, a) && w == SkipWord(t, s) && word == t[a..w] && body == t[s..w]
    ensures OnesFirst(s - a, word, body) && Trimmed(t) == if SkipSpaces(t, w) == |t| then Some(word) else None
  {
    TrimmedIs(t, a, s, w);
    OnesThenBody(t, a, s, w, word, body);
  }

  /** The whole specification, by positions in the text. */
  lemma SpecIs(t: string, maxLen: int, a: nat, s: nat, w: nat, ok: bool, r: Option<seq<nat>>)
    requires a == SkipSpaces(t, 0) && s == SkipOnes(t, a) && w == SkipWord(t, s) && ok == (SkipSpaces(t, w) == |t|)
    requires r == DecodeBody(t[s..w], s - a, maxLen)
    ensures DecodeTrimmed(Trimmed(t), maxLen) == if ok then r else None
  {
    var word, body := t[a..w], t[s..w];
    Positions(t, a, s, w, word, body);
    WholeIs(s - a, word, body, ok, Trimmed(t), maxLen, r);
  }

  lemma InvalidCharacter(body: string, i: nat, z: nat, maxLen: int)
    requires i < |body| && DigitOf(body[i]) == -1
    ensures DecodeBody(body, z, maxLen) == None
  {}

  lemma LimitExceeded(body: string, i: nat, z: nat, maxLen: int)
    requires 0 < i <= |body| && AllDigits(body[..i]) && z + |Digits(Number(DigitsIn(body[..i]), 58), 256)| > maxLen
    ensures DecodeBody(body, z, maxLen) == None
  {
    if AllDigits(body) { TooLong(body, i); }
  }

  lemma TooManyOnes(body: string, z: nat, maxLen: int)
    requires z > 0 && z > maxLen
    ensures DecodeBody(body, z, maxLen) == None
  {}

  lemma AllDecoded(body: string, z: nat, maxLen: int, b: seq<nat>, length: nat)
    requires Decoding(body, b, length) && (z + |body| > 0 ==> z + length <= maxLen)
    ensures DecodeBody(body, z, maxLen) == Some(Zeros(z) + Reverse(b[..length]))
  {}

  /** Where decoding stands after some characters behind the leading ones. */
  predicate Decoding(done: string, b: seq<nat>, length: nat) {
    AllDigits(done) && Holds(b, length, Number(DigitsIn(done), 58), 256)
  }

  /** One more character. */
  method DecodeCharacter(
      ghost done: string, x: char, ghost n: nat, b0: seq<nat>, length0: nat) returns (b: seq<nat>, length: nat)
    requires |done| < n && DigitOf(x) != -1 && |b0| == n * 733 / 1000 + 1 && Decoding(done, b0, length0)
    ensures |b| == |b0| && Decoding(done + [x], b, length)
  {
    DigitChar(x);
    DecodeNext(done, x, n, |b0|);
    b, length := MultiplyAdd(b0, length0, DigitOf(x), 58, 256, Number(DigitsIn(done), 58));
  }

  /** The characters behind the leading ones, one after the other; `n` is what the buffer is sized for. */
  method DecodeDigits(body: string, z: nat, n: nat, maxLen: int) returns (r: Option<seq<nat>>)
    requires |body| <= n && (z > 0 ==> z <= maxLen)
    ensures r == DecodeBody(body, z, maxLen)
  {
    var size := n * 733 / 1000 + 1;
    var b, length: nat, i: nat := Zeros(size), 0, 0;
    assert body[..0] == "";
    while i < |body|
      invariant i <= |body| && |b| == size && Decoding(body[..i], b, length) && (z + i > 0 ==> z + length <= maxLen)
    {
      var digit := DigitOf(body[i]);
      if digit == -1 {
        InvalidCharacter(body, i, z, maxLen);
        return None;
      }
      b, length := DecodeCharacter(body[..i], body[i], n, b, length);
      i := i + 1;
      assert body[..i] == body[..i - 1] + [body[i - 1]];
      if length + z > maxLen {
        LimitExceeded(body, i, z, maxLen);
        return None;
      }
    }
    assert body[..i] == body;
    AllDecoded(body, z, maxLen, b, length);
    r := Some(Zeros(z) + Reverse(b[..length]));
  }

  /** `DecodeBase58`. */
  method DecodeBase58(t: string, maxLen: int) returns (r: Option<seq<nat>>)
    ensures r == DecodeSpec(t, maxLen)
  {
    if HasNul(t) { return None; }
    var a := SkipSpaces(t, 0);
    var s := SkipOnes(t, a);
    var w := SkipWord(t, s);
    r := DecodeWhole(t[s..w], s - a, |t| - s, maxLen);
    var ok := SkipSpaces(t, w) == |t|;
    SpecIs(t, maxLen, a, s, w, ok, r);
    if !ok { r := None; }
  }

  method DecodeWhole(body: string, z: nat, n: nat, maxLen: int) returns (r: Option<seq<nat>>)
    requires |body| <= n
    ensures r == DecodeBody(body, z, maxLen)
  {
    if z > 0 && z > maxLen {
      TooManyOnes(body, z, maxLen);
      return None;
    }
    r := DecodeDigits(body, z, n, maxLen);
  }
}
