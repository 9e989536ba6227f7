/** The `base_uint` object: its operators as loops over the limbs, each proved to compute the
    function of module Arith and thereby the integer operation; shift-subtract division, compact
    targets and the block proof. */
module ArithUint {
  import opened Numbers
  import opened Arith

  // ------------------------------------------------------------------ division

  /** One bit set in the quotient: `q[pos / 32] |= 1 << (pos & 31)`. */
  function SetBit(q: seq<Limb>, pos: nat): (r: seq<Limb>)
    requires pos < 32 * |q|
    ensures |r| == |q|
    decreases |q|
  {
    if pos < 32 then [OrLimb(q[0], BitLimb(pos))] + q[1..] else [q[0]] + SetBit(q[1..], pos - 32)
  }

  function BitLimb(pos: nat): (r: Limb)
    requires pos < 32
    ensures r == Pow2(pos)
  {
    Pow2Values();
    Pow2Monotone(pos, 32);
    Pow2(pos)
  }

  lemma {:induction false} SetBitAt(q: seq<Limb>, pos: nat)
    requires pos < 32 * |q|
    ensures SetBit(q, pos) == q[pos / 32 := OrLimb(q[pos / 32], BitLimb(pos % 32))]
    decreases |q|
  {
    if pos >= 32 {
      SetBitAt(q[1..], pos - 32);
      assert pos / 32 == (pos - 32) / 32 + 1 && pos % 32 == (pos - 32) % 32;
    }
  }

  /** A number whose low bits are all clear. */
  ghost predicate Aligned(x: nat, n: nat) { exists h: nat :: x == Scaled(h, n) }
  function Scaled(h: nat, n: nat): nat { h * Pow2(n) }

  lemma AlignedLimb(x: Limb, v: nat, n: nat)
    requires n <= 32 && Aligned(x + BASE * v, n)
    ensures Aligned(x, n)
  {
    var h: nat :| x + BASE * v == Scaled(h, n);
    Factors(n);
    AlignedLow(x, v, h, Pow2(n), Pow2(32 - n));
    assert x == Scaled(h - Pow2(32 - n) * v, n);
  }

  lemma AlignedRest(x: Limb, v: nat, n: nat)
    requires n >= 32 && Aligned(x + BASE * v, n)
    ensures x == 0 && Aligned(v, n - 32)
  {
    var h: nat :| x + BASE * v == Scaled(h, n);
    Pow2Values();
    Pow2Add(32, n - 32);
    assert h * (BASE * Pow2(n - 32)) == BASE * (h * Pow2(n - 32));
    assert x == 0 && v == Scaled(h, n - 32);
  }

  lemma AlignedLow(x: nat, v: nat, h: nat, p: nat, q: nat)
    requires p > 0 && p * q == BASE && x + BASE * v == h * p
    ensures h >= q * v && x == (h - q * v) * p
  {
    assert BASE * v == (q * v) * p;
    assert (h - q * v) * p == h * p - (q * v) * p;
    if h < q * v { Multiple(p, h - q * v); }
  }

  lemma {:induction false} SetBitValue(q: seq<Limb>, pos: nat)
    requires pos < 32 * |q| && Aligned(Value(q), pos + 1)
    ensures Value(SetBit(q, pos)) == Value(q) + Pow2(pos)
    decreases |q|
  {
    if pos < 32 {
      AlignedLimb(q[0], Value(q[1..]), pos + 1);
      var h: nat :| q[0] == Scaled(h, pos + 1);
      OrComm(q[0], Pow2(pos));
      OrIsSum(Pow2(pos), h, pos + 1);
    } else {
      AlignedRest(q[0], Value(q[1..]), pos + 1);
      SetBitValue(q[1..], pos - 32);
      Pow2Add(32, pos - 32);
      Pow2Values();
    }
  }

  /** The state of shift-subtract division with the bits from `bits` up decided. */
  ghost predicate Dividing(n: nat, d: nat, bits: nat, num: nat, quo: nat) {
    num + quo * d == n && num < d * Pow2(bits) && Aligned(quo, bits)
  }

  lemma DivideStart(n: nat, d: nat, shift: nat, b: nat)
    requires b > 0 && Pow2(b - 1) <= d < Pow2(b) && n < Pow2(b + shift)
    ensures Dividing(n, d, shift + 1, n, 0) && d * Pow2(shift) < Pow2(b + shift)
  {
    Pow2Add(b, shift);
    StartBounds(n, d, Pow2(b - 1), Pow2(shift));
    assert 0 == Scaled(0, shift + 1);
  }

  lemma StartBounds(n: nat, d: nat, low: nat, p: nat)
    requires low <= d < low + low && n < (low + low) * p && p > 0
    ensures n < d * (p + p) && d * p < (low + low) * p
  {
    ProductMonotone(low, d, p);
    assert (low + low) * p == low * p + low * p && d * (p + p) == d * p + d * p;
    Multiple(p, low + low - d);
    assert (low + low - d) * p == (low + low) * p - d * p;
  }

  /** One bit of the quotient. */
  lemma DivideStep(n: nat, d: nat, shift: nat, num: nat, quo: nat)
    requires d > 0 && Dividing(n, d, shift + 1, num, quo)
    ensures var div := d * Pow2(shift);
      if num >= div then Dividing(n, d, shift, num - div, quo + Pow2(shift)) else Dividing(n, d, shift, num, quo)
  {
    var p := Pow2(shift);
    assert d * (p + p) == d * p + d * p;
    var h: nat :| quo == Scaled(h, shift + 1);
    assert h * (p + p) == (h + h) * p && (h + h) * p + p == (h + h + 1) * p;
    assert quo == Scaled(h + h, shift) && quo + p == Scaled(h + h + 1, shift);
    assert (quo + p) * d == quo * d + d * p;
  }

  lemma DivideEnd(n: nat, d: nat, num: nat, quo: nat)
    requires d > 0 && Dividing(n, d, 0, num, quo)
    ensures quo == n / d && num == n % d
  {
    RemainderIs(n, d, quo, num);
  }

  lemma HalfScaled(d: nat, shift: nat)
    requires shift > 0
    ensures d * Pow2(shift) / Pow2(1) == d * Pow2(shift - 1)
  {
    var x := d * Pow2(shift - 1);
    assert d * (Pow2(shift - 1) + Pow2(shift - 1)) == x + x;
    assert Pow2(1) == 2;
  }

  // ---------------------------------------------------------------- the object

  class BaseUint {
    var pn: seq<Limb>

    constructor (limbs: seq<Limb>)
      ensures pn == limbs
    {
      pn := limbs;
    }

    /** From a 64-bit number: two limbs and zeros above. */
    constructor FromWord(width: nat, b: nat)
      requires width >= 2 && b < 0x1_0000_0000_0000_0000
      ensures |pn| == width && Value(pn) == b
    {
      pn := [b % 0x1_0000_0000, b / 0x1_0000_0000] + Zeros(width - 2);
      new;
      WordValue(b % 0x1_0000_0000, b / 0x1_0000_0000, width - 2);
    }

    /** One pass with a carry over the limbs; every intermediate sum fits 64 bits. */
    static method CarryPass(acc: seq<Limb>, b: seq<Limb>, m: Limb) returns (r: seq<Limb>)
      requires |acc| == |b|
      ensures r == Accumulate(acc, b, m, 0)
    {
      r := [];
      var carry: Limb := 0;
      var i := 0;
      assert acc[0..] == acc && b[0..] == b;
      while i < |acc|
        invariant i <= |acc| && |r| == i
        invariant r + Accumulate(acc[i..], b[i..], m, carry) == Accumulate(acc, b, m, 0)
      {
        NoOverflow(acc[i], b[i], m, carry);
        var n: int := carry + acc[i] + m * b[i];
        assert 0 <= n < 0x1_0000_0000_0000_0000;
        assert acc[i..][1..] == acc[i + 1..] && b[i..][1..] == b[i + 1..];
        ghost var rest := Accumulate(acc[i + 1..], b[i + 1..], m, n / 0x1_0000_0000);
        assert Accumulate(acc[i..], b[i..], m, carry) == [n % 0x1_0000_0000] + rest;
        assert r + ([n % 0x1_0000_0000] + rest) == r + [n % 0x1_0000_0000] + rest;
        r := r + [n % 0x1_0000_0000];
        carry := n / 0x1_0000_0000;
        i := i + 1;
      }
    }

    method Add(b: seq<Limb>)
      requires |b| == |pn|
      modifies this
      ensures |pn| == |old(pn)| && Same(Value(pn), Value(old(pn)) + Value(b), |pn|)
    {
      AddValue(pn, b);
      pn := CarryPass(pn, b, 1);
    }

    /** `*this += -b`. */
    method Sub(b: seq<Limb>)
      requires |b| == |pn|
      modifies this
      ensures |pn| == |old(pn)| && Same(Value(pn), Value(old(pn)) - Value(b), |pn|)
    {
      SubtractValue(pn, b);
      pn := CarryPass(pn, Negate(b), 1);
    }

    method MulWord(m: Limb)
      modifies this
      ensures |pn| == |old(pn)| && Same(Value(pn), Value(old(pn)) * m, |pn|)
    {
      AccumulateValue(Zeros(|pn|), pn, m, 0);
      ZerosValue(|pn|);
      assert m * Value(pn) == Value(pn) * m;
      pn := CarryPass(Zeros(|pn|), pn, m);
    }

    method Mul(b: seq<Limb>)
      requires |b| == |pn|
      modifies this
      ensures |pn| == |old(pn)| && Same(Value(pn), Value(old(pn)) * Value(b), |pn|)
    {
      var w, j := |pn|, 0;
      var a := Zeros(w);
      ZerosValue(w);
      RowsValue(a, pn, b);
      assert pn[0..] == pn && a[0..] == a;
      while j < w
        invariant j <= w && |a| == w && pn == old(pn)
        invariant a[..j] + Rows(a[j..], pn[j..], b) == Rows(Zeros(w), pn, b)
      {
        var row := CarryPass(a[j..], b[..w - j], pn[j]);
        assert pn[j..][1..] == pn[j + 1..];
        RowDone(a, row, j, Rows(row[1..], pn[j + 1..], b));
        a := a[..j] + row;
        j := j + 1;
      }
      assert a[..w] == a && a[w..] == [];
      assert a == Rows(Zeros(w), pn, b);
      pn := a;
    }

    static method LeftRound(a: seq<Limb>, was: seq<Limb>, k: nat, s: nat, i: nat) returns (r: seq<Limb>)
      requires s < 32 && i < |a| && LeftDone(a, was, k, s, i)
      ensures LeftDone(a, r, k, s, i + 1)
    {
      var p, q := Pow2(s), Pow2(32 - s);
      r := was;
      if s == 0 { NoSpill(a[i]); }
      if i + k + 1 < |a| && s != 0 { r := r[i + k + 1 := OrLimb(r[i + k + 1], Right(a[i], q))]; }
      if i + k < |a| { r := r[i + k := OrLimb(r[i + k], Left(a[i], p))]; }
    }

    static method RightRound(a: seq<Limb>, was: seq<Limb>, k: nat, s: nat, i: nat) returns (r: seq<Limb>)
      requires s < 32 && i < |a| && RightDone(a, was, k, s, i)
      ensures RightDone(a, r, k, s, i + 1)
    {
      var p, q := Pow2(s), Pow2(32 - s);
      r := was;
      if s == 0 { NoRise(a[i]); }
      if i - k - 1 >= 0 && s != 0 { r := r[i - k - 1 := OrLimb(r[i - k - 1], Left(a[i], q))]; }
      if i - k >= 0 { r := r[i - k := OrLimb(r[i - k], Right(a[i], p))]; }
    }

    method ShiftLeftBy(shift: nat)
      modifies this
      ensures pn == ShiftLeft(old(pn), shift)
    {
      var a, w, k, s := pn, |pn|, shift / 32, shift % 32;
      var r := Zeros(w);
      ShiftStart(a, k, s);
      var i := 0;
      while i < w
        invariant i <= w && LeftDone(a, r, k, s, i)
      {
        r := LeftRound(a, r, k, s, i);
        i := i + 1;
      }
      LeftEnds(a, k, s, r);
      pn := r;
    }

    method ShiftRightBy(shift: nat)
      modifies this
      ensures pn == ShiftRight(old(pn), shift)
    {
      var a, w, k, s := pn, |pn|, shift / 32, shift % 32;
      var r := Zeros(w);
      ShiftStart(a, k, s);
      var i := 0;
      while i < w
        invariant i <= w && RightDone(a, r, k, s, i)
      {
        r := RightRound(a, r, k, s, i);
        i := i + 1;
      }
      RightEnds(a, k, s, r);
      pn := r;
    }

    method Inc()
      modifies this
      ensures |pn| == |old(pn)| && Same(Value(pn), Value(old(pn)) + 1, |pn|)
    {
      IncrementValue(pn);
      ghost var goal := Increment(pn);
      var i := 0;
      assert pn[0..] == pn;
      while i < |pn| && pn[i] == 0xffff_ffff
        invariant i <= |pn| && |pn| == |old(pn)|
        invariant pn[..i] + Increment(pn[i..]) == goal
      {
        IncrementCarries(pn, i);
        pn := pn[i := 0];
        i := i + 1;
      }
      IncrementStops(pn, i);
      if i < |pn| { pn := pn[i := pn[i] + 1]; }
    }

    /** The position of the highest bit set, plus one. */
    method CountBits() returns (r: nat)
      ensures r == BitLength(Value(pn))
    {
      BitsValue(pn);
      var pos := |pn|;
      assert pn[pos..] == [];
      while pos > 0
        invariant pos <= |pn| && Bits(pn[pos..]) == 0
      {
        pos := pos - 1;
        assert pn[pos..][1..] == pn[pos + 1..];
        if pn[pos] != 0 {
          BitsFrom(pn, pos);
          var n := LimbBitCount(pn[pos]);
          return 32 * pos + n;
        }
      }
      assert pn[0..] == pn;
      r := 0;
    }

    static method LimbBitCount(x: Limb) returns (r: nat)
      requires x != 0
      ensures r == BitLength(x)
    {
      Pow2Values();
      var nbits := 31;
      while nbits > 0
        invariant nbits >= 0 && x < Pow2(nbits + 1)
      {
        TopBit(x, nbits);
        if HasBit(x, nbits) {
          BitLengthIs(x, nbits);
          return nbits + 1;
        }
        nbits := nbits - 1;
      }
      BitLengthIs(x, 0);
      r := 1;
    }

    /** `/=`: the floor quotient, or failure with the value left at 0. */
    method Div(b: seq<Limb>) returns (ok: bool)
      requires |b| == |pn|
      modifies this
      ensures ok <==> Value(b) != 0
      ensures |pn| == |old(pn)| && Value(pn) == if ok then Value(old(pn)) / Value(b) else 0
    {
      ghost var n, d := Value(pn), Value(b);
      var num, w := pn, |pn|;
      var numBits := CountBits();
      var divObject := new BaseUint(b);
      var divBits := divObject.CountBits();
      pn := Zeros(w);
      ZerosValue(w);
      BitLengthMeans(n);
      BitLengthMeans(d);
      BitsValue(num);
      if divBits == 0 { return false; }
      ok := true;
      if divBits > numBits {
        ShorterQuotient(n, d);
        return;
      }
      var shift: int := numBits - divBits;
      DivideStart(n, d, shift, divBits);
      AlignDivisor(b, shift, numBits, Scaled(d, shift));
      pn := QuotientBits(num, ShiftLeft(b, shift), pn, shift, n, d);
    }

    /** The rounds of shift-subtract division; `num` ends as the remainder. */
    static method QuotientBits(
        num0: seq<Limb>, div0: seq<Limb>, quo0: seq<Limb>, shift0: nat, ghost n: nat,
          ghost d: nat) returns (quo: seq<Limb>)
      requires d > 0 && Round(n, d, shift0, num0, div0, quo0)
      ensures |quo| == |quo0| && Value(quo) == n / d
    {
      var num, div, shift: int := num0, div0, shift0;
      quo := quo0;
      while shift >= 0
        invariant |quo| == |quo0| && Round(n, d, shift, num, div, quo)
      {
        NextRound(n, d, shift, num, div, quo);
        if Compare(num, div) >= 0 {
          num := Subtract(num, div);
          quo := quo[shift / 32 := OrLimb(quo[shift / 32], BitLimb(shift % 32))];
        }
        div := ShiftRight(div, 1);
        shift := shift - 1;
      }
      DivideEnd(n, d, Value(num), Value(quo));
    }

    method CompareTo(b: seq<Limb>) returns (r: int)
      requires |b| == |pn|
      ensures r == if Value(pn) < Value(b) then -1 else if Value(pn) > Value(b) then 1 else 0
    {
      CompareValue(pn, b);
      var i := |pn|;
      assert pn[i..] == [] && b[i..] == [];
      while i > 0
        invariant i <= |pn| && Compare(pn[i..], b[i..]) == 0
      {
        i := i - 1;
        assert pn[i..][1..] == pn[i + 1..] && b[i..][1..] == b[i + 1..];
        CompareFrom(pn, b, i);
        if pn[i] < b[i] { return -1; }
        if pn[i] > b[i] { return 1; }
      }
      assert pn[0..] == pn && b[0..] == b;
      r := 0;
    }
  }

  lemma IncrementCarries(a: seq<Limb>, i: nat)
    requires i < |a| && a[i] == 0xffff_ffff
    ensures var b := a[i := 0]; b[..i + 1] + Increment(b[i + 1..]) == a[..i] + Increment(a[i..])
  {
    var b := a[i := 0];
    assert a[i..][1..] == b[i + 1..];
    assert b[..i + 1] == a[..i] + [0];
  }

  lemma IncrementStops(a: seq<Limb>, i: nat)
    requires i <= |a| && (i < |a| ==> a[i] != 0xffff_ffff)
    ensures a[..i] + Increment(a[i..]) == if i < |a| then a[i := a[i] + 1] else a
  {
    if i < |a| { assert a[i..][1..] == a[i + 1..]; }
  }

  /** One row of long multiplication leaves one more limb final. */
  lemma RowDone(a: seq<Limb>, row: seq<Limb>, j: nat, rest: seq<Limb>)
    requires j < |a| && |row| == |a| - j
    ensures var next := a[..j] + row;
      next[j + 1..] == row[1..] && next[..j + 1] + rest == a[..j] + ([row[0]] + rest)
  {
    assert (a[..j] + row)[..j + 1] == a[..j] + [row[0]];
  }

  lemma Fits(r: seq<Limb>, x: nat)
    requires Same(Value(r), x, |r|) && x < Modulus(|r|)
    ensures Value(r) == x
  {
    ValueBelow(r);
    SameInRange(Value(r), x, |r|);
  }

  lemma FitsWidth(x: nat, bits: nat, w: nat)
    requires x < Pow2(bits) && bits <= 32 * w
    ensures x < Modulus(w)
  {
    ModulusIsPow2(w);
    if bits < 32 * w { Pow2Monotone(bits, 32 * w); }
  }

  /** Shifted up to the length of the dividend, the divisor still fits. */
  lemma AlignDivisor(b: seq<Limb>, shift: nat, numBits: nat, x: nat)
    requires x == Value(b) * Pow2(shift) && x < Pow2(numBits) && numBits <= 32 * |b|
    ensures Value(ShiftLeft(b, shift)) == x
  {
    FitsWidth(x, numBits, |b|);
    ShiftLeftValue(b, shift);
    Fits(ShiftLeft(b, shift), x);
  }

  /** One round of the division loop on limbs. */
  ghost predicate Round(n: nat, d: nat, shift: int, num: seq<Limb>, div: seq<Limb>, quo: seq<Limb>) {
    && -1 <= shift < 32 * |quo| && |num| == |div| == |quo|
    && Dividing(n, d, shift + 1, Value(num), Value(quo))
    && (shift >= 0 ==> Value(div) == d * Pow2(shift))
  }

  lemma NextRound(n: nat, d: nat, shift: nat, num: seq<Limb>, div: seq<Limb>, quo: seq<Limb>)
    requires d > 0 && Round(n, d, shift, num, div, quo)
    ensures Compare(num, div) >= 0 ==>
      Round(n, d, shift - 1, Subtract(num, div), ShiftRight(div, 1),
        quo[shift / 32 := OrLimb(quo[shift / 32], BitLimb(shift % 32))])
    ensures Compare(num, div) < 0 ==> Round(n, d, shift - 1, num, ShiftRight(div, 1), quo)
  {
    DivideStep(n, d, shift, Value(num), Value(quo));
    CompareValue(num, div);
    NextDivisor(div, d, shift);
    if Compare(num, div) >= 0 {
      TakeAway(num, div);
      SetBitValue(quo, shift);
      SetBitAt(quo, shift);
    }
  }

  lemma NextDivisor(div: seq<Limb>, d: nat, shift: nat)
    requires Value(div) == d * Pow2(shift)
    ensures shift > 0 ==> Value(ShiftRight(div, 1)) == d * Pow2(shift - 1)
  {
    ShiftRightValue(div, 1);
    if shift > 0 { HalfScaled(d, shift); }
  }

  /** Subtraction without a borrow is exact. */
  lemma TakeAway(a: seq<Limb>, b: seq<Limb>)
    requires |a| == |b| && Value(a) >= Value(b)
    ensures Value(Subtract(a, b)) == Value(a) - Value(b)
  {
    SubtractValue(a, b);
    ValueBelow(a);
    ValueBelow(Subtract(a, b));
    SameInRange(Value(Subtract(a, b)), Value(a) - Value(b), |a|);
  }

  lemma ShorterQuotient(n: nat, d: nat)
    requires BitLength(d) > BitLength(n)
    ensures n < d && n / d == 0
  {
    BitLengthMeans(n);
    BitLengthMeans(d);
    if BitLength(n) < BitLength(d) - 1 { Pow2Monotone(BitLength(n), BitLength(d) - 1); }
    RemainderIs(n, d, 0, n);
  }

  predicate HasBit(x: nat, n: nat) { (x / Pow2(n)) % 2 == 1 }

  lemma TopBit(x: nat, n: nat)
    requires x < Pow2(n + 1)
    ensures HasBit(x, n) <==> x >= Pow2(n)
  {
    var p := Pow2(n);
    if x >= p { RemainderIs(x, p, 1, x - p); } else { RemainderIs(x, p, 0, x); }
  }

  /** The highest limb that is not 0 decides the number of bits. */
  lemma {:induction false} BitsFrom(a: seq<Limb>, pos: nat)
    requires pos < |a| && Bits(a[pos + 1..]) == 0 && a[pos] > 0
    ensures Bits(a) == 32 * pos + BitLength(a[pos])
    decreases pos
  {
    if pos > 0 {
      assert a[1..][pos..] == a[pos + 1..];
      BitsFrom(a[1..], pos - 1);
    }
  }

  /** Once the limbs from `i` up differ, they decide. */
  lemma {:induction false} CompareFrom(a: seq<Limb>, b: seq<Limb>, i: nat)
    requires i <= |a| == |b|
    ensures Compare(a[i..], b[i..]) != 0 ==> Compare(a, b) == Compare(a[i..], b[i..])
    decreases i
  {
    if i == 0 {
      assert a[0..] == a && b[0..] == b;
    } else {
      assert a[i..] == a[1..][i - 1..] && b[i..] == b[1..][i - 1..];
      CompareFrom(a[1..], b[1..], i - 1);
    }
  }

  /** The limbs after i rounds of a shift. */
  predicate LeftDone(a: seq<Limb>, r: seq<Limb>, k: nat, s: nat, i: nat)
    requires s < 32
  {
    |r| == |a| && forall j :: 0 <= j < |a| ==> r[j] == LeftAfter(a, k, Pow2(s), Pow2(32 - s), i, j)
  }

  predicate RightDone(a: seq<Limb>, r: seq<Limb>, k: nat, s: nat, i: nat)
    requires s < 32
  {
    |r| == |a| && forall j :: 0 <= j < |a| ==> r[j] == RightAfter(a, k, Pow2(s), Pow2(32 - s), i, j)
  }

  lemma ShiftStart(a: seq<Limb>, k: nat, s: nat)
    requires s < 32
    ensures LeftDone(a, Zeros(|a|), k, s, 0) && RightDone(a, Zeros(|a|), k, s, 0)
  {}

  /** The j-th limb after i rounds of a shift. */
  function LeftAfter(a: seq<Limb>, k: nat, p: nat, q: nat, i: nat, j: nat): Limb
    requires q > 0
  {
    if j < i + k then LimbUp(a, j - k, p, q) else if j == i + k then Right(Pick(a, i - 1), q) else 0
  }

  function RightAfter(a: seq<Limb>, k: nat, p: nat, q: nat, i: nat, j: nat): Limb
    requires p > 0
  {
    if j < i - k - 1 then LimbDown(a, j + k, p, q) else if j == i - k - 1 then Right(Pick(a, i - 1), p) else 0
  }

  lemma LeftEnds(a: seq<Limb>, k: nat, s: nat, r: seq<Limb>)
    requires s < 32 && LeftDone(a, r, k, s, |a|)
    ensures r == MoveUp(a, k, Pow2(s), Pow2(32 - s))
  {}

  lemma RightEnds(a: seq<Limb>, k: nat, s: nat, r: seq<Limb>)
    requires s < 32 && RightDone(a, r, k, s, |a|)
    ensures r == MoveDown(a, k, Pow2(s), Pow2(32 - s))
  {
    forall j | 0 <= j < |a| ensures r[j] == LimbDown(a, j + k, Pow2(s), Pow2(32 - s)) {
      ZeroParts(Pow2(s), Pow2(32 - s));
      OrZero(Right(Pick(a, j + k), Pow2(s)));
    }
  }

  lemma WordValue(x: Limb, y: Limb, n: nat)
    ensures Value([x, y] + Zeros(n)) == x + BASE * y
  {
    var a := [x, y] + Zeros(n);
    assert a[1..] == [y] + Zeros(n) && a[1..][1..] == Zeros(n);
    ZerosValue(n);
  }

  lemma NoSpill(x: Limb)
    ensures Right(x, Pow2(32)) == 0
  {
    Pow2Values();
  }

  lemma NoRise(x: Limb)
    ensures Left(x, Pow2(32)) == 0
  {
    Pow2Values();
  }

  lemma OrZero(x: Limb)
    ensures OrLimb(x, 0) == x && OrLimb(0, x) == x
  {}

  // ----------------------------------------------------------- compact targets

  const WIDTH := 8

  /** The parts of a compact number: one byte of size, a sign bit, 23 bits of mantissa. */
  function SizeOf(c: Limb): nat { c / 0x100_0000 }
  function WordOf(c: Limb): nat { c % 0x80_0000 }
  predicate SignOf(c: Limb) { (c / 0x80_0000) % 2 == 1 }

  /** The whole number a size and mantissa stand for, before any truncation. */
  function Expand(size: nat, word: nat): nat {
    if size <= 3 then word / Pow2(8 * (3 - size)) else word * Pow2(8 * (size - 3))
  }

  /** The condition the source tests for overflow. */
  predicate TooBig(size: nat, word: nat) {
    word != 0 && (size > 34 || (word > 0xff && size > 33) || (word > 0xffff && size > 32))
  }

  lemma ProductBelow(w: nat, m: nat, p: nat)
    requires p > 0
    ensures w < m <==> w * p < m * p
  {
    if w < m { Multiple(p, m - w); assert (m - w) * p == m * p - w * p; } else { ProductMonotone(m, w, p); }
  }

  lemma BigSize(e: nat, word: nat)
    requires e >= 256
    ensures word != 0 <==> word * Pow2(e) >= Pow2(256)
  {
    if e > 256 { Pow2Monotone(256, e); }
    if word > 0 { ProductMonotone(1, word, Pow2(e)); }
  }

  /** Below 256 bits the mantissa decides. */
  lemma EdgeSize(e: nat, word: nat)
    requires e <= 256
    ensures word >= Pow2(256 - e) <==> word * Pow2(e) >= Pow2(256)
  {
    Pow2Add(256 - e, e);
    ProductBelow(word, Pow2(256 - e), Pow2(e));
  }

  lemma MantissaBelow(e: nat, word: nat)
    requires e <= 232 && word < 0x80_0000
    ensures word < Pow2(256 - e)
  {
    Pow2Values();
    Pow2Add(8, 16);
    if e < 232 { Pow2Monotone(24, 256 - e); }
  }

  /** It is met exactly when the number does not fit 256 bits. */
  lemma TooBigMeans(size: nat, word: nat)
    requires size > 3 && word < 0x80_0000
    ensures TooBig(size, word) <==> Expand(size, word) >= Pow2(256)
  {
    var e := 8 * (size - 3);
    Pow2Values();
    if size >= 35 { BigSize(e, word); }
    else {
      EdgeSize(e, word);
      if size <= 32 { MantissaBelow(e, word); }
    }
  }

  lemma SmallSize(size: nat, word: nat)
    requires size <= 3 && word < 0x80_0000
    ensures Expand(size, word) <= word
  {
    QuotientBound(word, Pow2(8 * (3 - size)));
  }

  function WordLimbs(word: Limb): (r: seq<Limb>)
    ensures |r| == WIDTH
  {
    [word, 0] + Zeros(WIDTH - 2)
  }

  lemma SmallTarget(size: nat, word: nat)
    requires size <= 3 && word < 0x80_0000
    ensures var x := Expand(size, word);
      x < 0x80_0000 && x < Pow2(256) && Value(WordLimbs(x)) == x && Same(x, x, WIDTH)
  {
    var x := Expand(size, word);
    SmallSize(size, word);
    Pow2Small();
    WordValue(x, 0, WIDTH - 2);
    SameBy(x, x, WIDTH, 0);
  }

  lemma LargeTarget(size: nat, word: nat)
    requires size > 3 && word < 0x80_0000
    ensures var x, t := Expand(size, word), ShiftLeft(WordLimbs(word), 8 * (size - 3));
      Same(Value(t), x, WIDTH) && (x < Pow2(256) ==> Value(t) == x)
  {
    var x, t := Expand(size, word), ShiftLeft(WordLimbs(word), 8 * (size - 3));
    WordValue(word, 0, WIDTH - 2);
    ShiftLeftValue(WordLimbs(word), 8 * (size - 3));
    ModulusIsPow2(WIDTH);
    if x < Pow2(256) { Fits(t, x); }
  }

  /** `SetCompact`: the value, the sign flag and the overflow flag, all exact. */
  method SetCompact(c: Limb) returns (target: seq<Limb>, negative: bool, overflow: bool)
    ensures |target| == WIDTH
    ensures Same(Value(target), Expand(SizeOf(c), WordOf(c)), WIDTH)
    ensures overflow <==> Expand(SizeOf(c), WordOf(c)) >= Pow2(256)
    ensures !overflow ==> Value(target) == Expand(SizeOf(c), WordOf(c))
    ensures negative <==> SignOf(c) && (if SizeOf(c) <= 3 then Expand(SizeOf(c), WordOf(c)) else WordOf(c)) != 0
  {
    var size, word := SizeOf(c), WordOf(c);
    if size <= 3 {
      SmallTarget(size, word);
      word := word / Pow2(8 * (3 - size));
      target := WordLimbs(word);
    } else {
      LargeTarget(size, word);
      TooBigMeans(size, word);
      target := ShiftLeft(WordLimbs(word), 8 * (size - 3));
    }
    negative := word != 0 && SignOf(c);
    overflow := TooBig(size, word);
  }

  lemma Pow2Small()
    ensures 0x80_0000 < Pow2(256)
  {
    Pow2Values();
    Pow2Monotone(32, 256);
  }

  /** A target in range is not the largest number, so adding one does not wrap. */
  lemma TargetNotLast(size: nat, word: nat)
    requires word < 0x80_0000 && Expand(size, word) < Pow2(256)
    ensures Expand(size, word) + 1 < Pow2(256)
  {
    Pow2Small();
    if size <= 3 { SmallSize(size, word); }
    else { EvenBelow(word, Pow2(8 * (size - 3) - 1), Pow2(255)); }
  }

  lemma EvenBelow(w: nat, p: nat, m: nat)
    requires w * (p + p) < m + m
    ensures w * (p + p) + 1 < m + m
  {
    assert w * (p + p) == w * p + w * p;
  }

  lemma ProofQuotient(m: nat, t: nat)
    requires 0 < t && t + 1 < m
    ensures (m - 1 - t) / (t + 1) + 1 == m / (t + 1) < m
  {
    var d := t + 1;
    var q, r := (m - d) / d, (m - d) % d;
    assert m - d == q * d + r;
    assert (q + 1) * d == q * d + d;
    RemainderIs(m, d, q + 1, r);
    ProductMonotone(2, d, q + 1);
  }

  /** Adding one without a carry out of the top. */
  lemma PlusOne(a: seq<Limb>, one: seq<Limb>)
    requires |one| == |a| && Value(one) == 1 && Value(a) + 1 < Modulus(|a|)
    ensures Value(Accumulate(a, one, 1, 0)) == Value(a) + 1
  {
    AddValue(a, one);
    Fits(Accumulate(a, one, 1, 0), Value(a) + 1);
  }

  /** `GetBlockProof`: floor(2^256 / (target + 1)), and 0 for a target that is negative, zero or too big. */
  method GetBlockProof(nBits: Limb) returns (proof: seq<Limb>)
    ensures |proof| == WIDTH
    ensures var target := Expand(SizeOf(nBits), WordOf(nBits));
      Value(proof) == if SignOf(nBits) || target == 0 || target >= Pow2(256) then 0 else Pow2(256) / (target + 1)
  {
    var target, negative, overflow := SetCompact(nBits);
    var zero := Zeros(WIDTH);
    ZerosValue(WIDTH);
    ModulusIsPow2(WIDTH);
    if negative || overflow || target == zero {
      return zero;
    }
    if Value(target) == 0 { ValueInjective(target, zero); }
    TargetNotLast(SizeOf(nBits), WordOf(nBits));
    proof := ProofOf(target);
  }

  /** `~target / (target + 1) + 1`. */
  method ProofOf(target: seq<Limb>) returns (proof: seq<Limb>)
    requires |target| == WIDTH && 0 < Value(target) && Value(target) + 1 < Pow2(256)
    ensures |proof| == WIDTH && Value(proof) == Pow2(256) / (Value(target) + 1)
  {
    ghost var m, t := Pow2(256), Value(target);
    assert Modulus(WIDTH) == m by { ModulusIsPow2(WIDTH); }
    var one := WordLimbs(1);
    WordValue(1, 0, WIDTH - 2);
    PlusOne(target, one);
    ComplementValue(target);
    ProofQuotient(m, t);
    var next := BaseUint.CarryPass(target, one, 1);
    var quotient := Quotient(Complement(target), next);
    PlusOne(quotient, one);
    proof := BaseUint.CarryPass(quotient, one, 1);
  }

  method Quotient(a: seq<Limb>, b: seq<Limb>) returns (q: seq<Limb>)
    requires |a| == |b| && Value(b) > 0
    ensures |q| == |a| && Value(q) == Value(a) / Value(b)
  {
    var num := new BaseUint(a);
    var ok := num.Div(b);
    q := num.pn;
  }

  // ------------------------------------------------------ encoding as compact

  function ByteSize(x: nat): nat { (BitLength(x) + 7) / 8 }

  /** The top three bytes. */
  function Mantissa(x: nat, size: nat): nat {
    if size <= 3 then x * Pow2(8 * (3 - size)) else x / Pow2(8 * (size - 3))
  }

  function EncodedSize(x: nat): nat { if Mantissa(x, ByteSize(x)) >= 0x80_0000 then ByteSize(x) + 1 else ByteSize(x) }
  function EncodedWord(x: nat): nat {
    var m := Mantissa(x, ByteSize(x));
    if m >= 0x80_0000 then m / 0x100 else m
  }

  lemma ByteSizeMeans(x: nat)
    requires x > 0
    ensures var s := ByteSize(x); s >= 1 && Pow2(8 * (s - 1)) <= x < Pow2(8 * s)
  {
    var s, b := ByteSize(x), BitLength(x);
    BitLengthMeans(x);
    if 8 * (s - 1) < b - 1 { Pow2Monotone(8 * (s - 1), b - 1); }
    if b < 8 * s { Pow2Monotone(b, 8 * s); }
  }

  lemma Cancel(x: nat, p: nat)
    requires p > 0
    ensures x * p / p == x
  {
    RemainderIs(x * p, p, x, 0);
  }

  /** Rounding down to a multiple of `q` loses less than one part in 2^15 of a number that large. */
  lemma Loss(x: nat, q: nat)
    requires q > 0 && x >= 0x8000 * q
    ensures x / q * q <= x && (x - x / q * q) * 0x8000 < x
  {
    assert x == x / q * q + x % q;
  }

  /** What the encoding keeps of a number. */
  predicate Faithful(x: nat, size: nat, word: nat) {
    var r := Expand(size, word);
    word < 0x80_0000 && r <= x && (x > 0 ==> (x - r) * 0x8000 < x)
  }

  lemma EncodeShort(x: nat, s: nat)
    requires x > 0 && 1 <= s <= 3 && x < Pow2(8 * s)
    ensures Mantissa(x, s) < 0x100_0000
    ensures Mantissa(x, s) < 0x80_0000 ==> Faithful(x, s, Mantissa(x, s))
    ensures Mantissa(x, s) >= 0x80_0000 && s < 3 ==> Faithful(x, s + 1, Mantissa(x, s) / 0x100)
  {
    var p := Pow2(8 * (3 - s));
    Pow2Add(8 * s, 8 * (3 - s));
    Pow2Values();
    Pow2Add(8, 16);
    ProductBelow(x, Pow2(8 * s), p);
    Cancel(x, p);
    if s < 3 {
      Pow2Add(8, 8 * (2 - s));
      DivideByProduct(x * p, 0x100, Pow2(8 * (2 - s)));
    }
  }

  lemma EncodeThree(x: nat)
    requires 0x80_0000 <= x < 0x100_0000
    ensures Mantissa(x, 3) == x && Faithful(x, 4, x / 0x100)
  {
    Pow2Values();
    assert Pow2(0) == 1;
    Loss(x, 0x100);
  }

  lemma EncodeLong(x: nat, s: nat)
    requires s > 3 && Pow2(8 * (s - 1)) <= x < Pow2(8 * s)
    ensures var m := Mantissa(x, s); 0x1_0000 <= m < 0x100_0000 && m * Pow2(8 * (s - 3)) <= x
  {
    var p := Pow2(8 * (s - 3));
    Pow2Add(16, 8 * (s - 3));
    Pow2Add(24, 8 * (s - 3));
    Pow2Values();
    Pow2Add(8, 16);
    var m := x / p;
    assert x == m * p + x % p;
    ProductBelow(m, 0x100_0000, p);
    assert (m + 1) * p == m * p + p;
    ProductBelow(0x1_0000, m + 1, p);
  }

  lemma EncodeLongFaithful(x: nat, s: nat)
    requires s > 3 && Pow2(8 * (s - 1)) <= x < Pow2(8 * s)
    ensures var m := Mantissa(x, s);
      if m < 0x80_0000 then Faithful(x, s, m) else Faithful(x, s + 1, m / 0x100)
  {
    var m, p := Mantissa(x, s), Pow2(8 * (s - 3));
    EncodeLong(x, s);
    if m < 0x80_0000 {
      ProductMonotone(0x8000, m, p);
      Loss(x, p);
    } else {
      Pow2Add(8, 8 * (s - 3));
      Pow2Values();
      DivideByProduct(x, p, 0x100);
      ProductMonotone(0x80_0000, m, p);
      Loss(x, p * 0x100);
    }
  }

  /** Encoding and decoding never gives more than the number, and loses less than one part in 2^15. */
  lemma EncodeFaithful(x: nat)
    ensures Faithful(x, EncodedSize(x), EncodedWord(x))
  {
    var s := ByteSize(x);
    if x == 0 {
      assert s == 0 && Mantissa(0, 0) == 0;
    } else {
      ByteSizeMeans(x);
      if s > 3 { EncodeLongFaithful(x, s); }
      else {
        EncodeShort(x, s);
        if s == 3 && Mantissa(x, 3) >= 0x80_0000 {
          assert Pow2(0) == 1;
          EncodeThree(x);
        }
      }
    }
  }

  lemma EncodedSizeSmall(x: nat)
    requires x < Pow2(256)
    ensures EncodedSize(x) <= 33
  {
    BitLengthMeans(x);
    if BitLength(x) > 257 { Pow2Monotone(256, BitLength(x) - 1); }
  }

  function Join(size: nat, sign: bool, word: nat): (c: Limb)
    requires size < 0x100 && word < 0x80_0000
    ensures SizeOf(c) == size && WordOf(c) == word && SignOf(c) == sign
  {
    size * 0x100_0000 + (if sign then 0x80_0000 else 0) + word
  }

  function Low64(a: seq<Limb>): nat
    requires |a| == WIDTH
  {
    (a[0] as int) + 0x1_0000_0000 * (a[1] as int)
  }

  lemma Low64Value(a: seq<Limb>)
    requires |a| == WIDTH && Value(a) < BASE
    ensures Low64(a) == Value(a)
  {
    assert a[1..][0] == a[1];
  }

  /** The mantissa as the source computes it, from the limbs. */
  method TopBytes(a: seq<Limb>, size: nat) returns (m: nat)
    requires |a| == WIDTH && size == ByteSize(Value(a))
    ensures m == Mantissa(Value(a), size)
  {
    Pow2Values();
    if Value(a) > 0 { ByteSizeMeans(Value(a)); }
    if size <= 3 {
      if size < 3 { Pow2Monotone(8 * size, 32); } else { Pow2Monotone(24, 32); }
      Low64Value(a);
      m := Low64(a) * Pow2(8 * (3 - size));
    } else {
      EncodeLong(Value(a), size);
      var bn := ShiftRight(a, 8 * (size - 3));
      ShiftRightValue(a, 8 * (size - 3));
      Low64Value(bn);
      m := Low64(bn);
    }
  }

  /** `GetCompact`. */
  method GetCompact(a: seq<Limb>, fNegative: bool) returns (c: Limb)
    requires |a| == WIDTH
    ensures SizeOf(c) == EncodedSize(Value(a)) && WordOf(c) == EncodedWord(Value(a))
    ensures SignOf(c) <==> fNegative && WordOf(c) != 0
    ensures Faithful(Value(a), SizeOf(c), WordOf(c))
  {
    ValueBelow(a);
    ModulusIsPow2(WIDTH);
    EncodedSizeSmall(Value(a));
    EncodeFaithful(Value(a));
    var bn := new BaseUint(a);
    var bits := bn.CountBits();
    var size := (bits + 7) / 8;
    var compact := TopBytes(a, size);
    if compact >= 0x80_0000 {
      compact := compact / 0x100;
      size := size + 1;
    }
    c := Join(size, fNegative && compact != 0, compact);
  }
}
