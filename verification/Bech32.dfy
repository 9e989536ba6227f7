/** Checksums whose step is linear over some addition in which every element is its own inverse. */
module LinearCode {
  datatype Code<!S(==), !V(==)> = Code(step: (S, V) -> S, add: (S, S) -> S, addV: (V, V) -> V, zero: S, zeroV: V,
                                       ok: S -> bool, okV: V -> bool, short: (nat, S) -> bool)

  predicate LinearAt<S(==), V(==)>(code: Code<S, V>, a: S, b: S, u: V, v: V) {
    code.step(code.add(a, b), code.addV(u, v)) == code.add(code.step(a, u), code.step(b, v))
  }

  predicate AddAt<S(==), V(==)>(code: Code<S, V>, a: S, b: S) {
    && code.add(a, a) == code.zero && (code.add(a, b) == code.zero ==> a == b)
    && (code.ok(a) && code.ok(b) ==> code.ok(code.add(a, b)))
  }

  predicate AddValueAt<S(==), V(==)>(code: Code<S, V>, a: V, b: V) {
    && code.addV(a, a) == code.zeroV && (code.addV(a, b) == code.zeroV ==> a == b)
    && (code.okV(a) && code.okV(b) ==> code.okV(code.addV(a, b)))
  }

  predicate StepAt<S(==), V(==)>(code: Code<S, V>, c: S, v: V) {
    && (code.ok(c) && code.okV(v) ==> code.ok(code.step(c, v)))
    && (code.ok(c) && code.step(c, code.zeroV) == code.zero ==> c == code.zero)
  }

  /** Up to six values after a zero state are all still there. */
  predicate ShortAt<S(==), V(==)>(code: Code<S, V>, k: nat, c: S, v: V) {
    k <= 5 && code.short(k, c) && code.okV(v) ==>
      code.short(k + 1, code.step(c, v)) && (code.step(c, v) == code.zero ==> c == code.zero && v == code.zeroV)
  }

  ghost predicate Laws<S(!new), V(!new)>(code: Code<S, V>) {
    && (forall a, b, u, v :: LinearAt(code, a, b, u, v))
    && (forall a, b :: AddAt(code, a, b))
    && (forall a, b :: AddValueAt(code, a, b))
    && (forall c, v :: StepAt(code, c, v))
    && (forall k, c, v :: ShortAt(code, k, c, v))
  }

  predicate AllOk<S(==), V(==)>(code: Code<S, V>, vs: seq<V>) { forall i :: 0 <= i < |vs| ==> code.okV(vs[i]) }

  /** The state after a list of values. */
  function From<S(==), V(==)>(code: Code<S, V>, c: S, vs: seq<V>): S
    decreases |vs|
  {
    if vs == [] then c else From(code, code.step(c, vs[0]), vs[1..])
  }

  lemma {:induction false} FromConcat<S, V>(code: Code<S, V>, c: S, us: seq<V>, vs: seq<V>)
    ensures From(code, c, us + vs) == From(code, From(code, c, us), vs)
    decreases |us|
  {
    if us == [] {
      assert us + vs == vs;
    } else {
      assert (us + vs)[1..] == us[1..] + vs;
      FromConcat(code, code.step(c, us[0]), us[1..], vs);
    }
  }

  lemma {:induction false} FromOk<S(!new), V(!new)>(code: Code<S, V>, c: S, vs: seq<V>)
    requires Laws(code) && code.ok(c) && AllOk(code, vs)
    ensures code.ok(From(code, c, vs))
    decreases |vs|
  {
    if vs != [] {
      assert StepAt(code, c, vs[0]);
      FromOk(code, code.step(c, vs[0]), vs[1..]);
    }
  }

  function AddAll<S(==), V(==)>(code: Code<S, V>, us: seq<V>, vs: seq<V>): (r: seq<V>)
    requires |us| == |vs|
    ensures |r| == |us|
    decreases |us|
  {
    if us == [] then [] else [code.addV(us[0], vs[0])] + AddAll(code, us[1..], vs[1..])
  }

  lemma {:induction false} AddAllAt<S, V>(code: Code<S, V>, us: seq<V>, vs: seq<V>, i: nat)
    requires i < |us| == |vs|
    ensures AddAll(code, us, vs)[i] == code.addV(us[i], vs[i])
    decreases |us|
  {
    if i > 0 { AddAllAt(code, us[1..], vs[1..], i - 1); }
  }

  /** The checksum is linear, */
  lemma {:induction false} FromLinear<S(!new), V(!new)>(code: Code<S, V>, a: S, b: S, us: seq<V>, vs: seq<V>)
    requires Laws(code) && |us| == |vs|
    ensures From(code, code.add(a, b), AddAll(code, us, vs)) == code.add(From(code, a, us), From(code, b, vs))
    decreases |us|
  {
    if us != [] {
      FromLinear(code, code.step(a, us[0]), code.step(b, vs[0]), us[1..], vs[1..]);
      assert LinearAt(code, a, b, us[0], vs[0]);
      assert AddAll(code, us, vs)[1..] == AddAll(code, us[1..], vs[1..]);
    }
  }

  lemma {:induction false} Kernel<S(!new), V(!new)>(code: Code<S, V>, c: S, vs: seq<V>)
    requires Laws(code) && code.ok(c) && code.okV(code.zeroV)
    requires (forall i :: 0 <= i < |vs| ==> vs[i] == code.zeroV) && From(code, c, vs) == code.zero
    ensures c == code.zero
    decreases |vs|
  {
    if vs != [] {
      assert StepAt(code, c, code.zeroV);
      Kernel(code, code.step(c, code.zeroV), vs[1..]);
    }
  }

  /** injective in the state it starts from, */
  lemma Injective<S(!new), V(!new)>(code: Code<S, V>, a: S, b: S, vs: seq<V>)
    requires Laws(code) && code.okV(code.zeroV) && code.ok(a) && code.ok(b) && From(code, a, vs) == From(code, b, vs)
    ensures a == b
  {
    FromLinear(code, a, b, vs, vs);
    assert AddAt(code, From(code, a, vs), From(code, b, vs)) && AddAt(code, a, b);
    forall i | 0 <= i < |vs| ensures AddAll(code, vs, vs)[i] == code.zeroV {
      AddAllAt(code, vs, vs, i);
      assert AddValueAt(code, vs[i], vs[i]);
    }
    Kernel(code, code.add(a, b), AddAll(code, vs, vs));
  }

  lemma {:induction false} ShortZero<S(!new), V(!new)>(code: Code<S, V>, k: nat, c: S, vs: seq<V>)
    requires Laws(code) && code.short(k, c) && AllOk(code, vs) && k + |vs| <= 6 && From(code, c, vs) == code.zero
    ensures c == code.zero && forall i :: 0 <= i < |vs| ==> vs[i] == code.zeroV
    decreases |vs|
  {
    if vs != [] {
      assert ShortAt(code, k, c, vs[0]);
      ShortZero(code, k + 1, code.step(c, vs[0]), vs[1..]);
      forall i | 0 <= i < |vs| ensures vs[i] == code.zeroV { assert i > 0 ==> vs[i] == vs[1..][i - 1]; }
    }
  }

  /** and injective in any six consecutive values. */
  lemma WindowInjective<S(!new), V(!new)>(code: Code<S, V>, c: S, us: seq<V>, vs: seq<V>)
    requires Laws(code) && code.short(0, code.zero) && |us| == |vs| <= 6 && AllOk(code, us) && AllOk(code, vs)
    requires From(code, c, us) == From(code, c, vs)
    ensures us == vs
  {
    FromLinear(code, c, c, us, vs);
    assert AddAt(code, c, c) && AddAt(code, From(code, c, us), From(code, c, vs));
    var d := AddAll(code, us, vs);
    forall i | 0 <= i < |us| ensures d[i] == code.addV(us[i], vs[i]) && AddValueAt(code, us[i], vs[i]) {
      AddAllAt(code, us, vs, i);
    }
    ShortZero(code, 0, code.zero, d);
  }

  /** Two lists of any length that differ only within six consecutive values cannot end in the same state. */
  lemma BurstDetected<S(!new), V(!new)>(code: Code<S, V>, c: S, head: seq<V>, us: seq<V>, vs: seq<V>, tail: seq<V>)
    requires Laws(code) && code.short(0, code.zero) && code.okV(code.zeroV) && code.ok(c)
    requires |us| == |vs| <= 6 && us != vs && AllOk(code, head) && AllOk(code, us) && AllOk(code, vs)
    ensures From(code, c, head + us + tail) != From(code, c, head + vs + tail)
  {
    var s := From(code, c, head);
    FromOk(code, c, head);
    FromOk(code, s, us);
    FromOk(code, s, vs);
    FromConcat(code, c, head, us);
    FromConcat(code, c, head, vs);
    FromConcat(code, c, head + us, tail);
    FromConcat(code, c, head + vs, tail);
    if From(code, c, head + us + tail) == From(code, c, head + vs + tail) {
      Injective(code, From(code, s, us), From(code, s, vs), tail);
      WindowInjective(code, s, us, vs);
    }
  }

  // ------------------------------------------------------ sums chosen by bits

  predicate Swaps<P(==)>(add: (P, P) -> P, p: P, q: P, r: P, s: P) {
    add(add(p, q), add(r, s)) == add(add(p, r), add(q, s))
  }
  predicate Cancels<P(==)>(add: (P, P) -> P, zero: P, p: P) {
    add(p, p) == zero && add(p, zero) == p && add(zero, p) == p
  }

  ghost predicate Group<P(!new)>(add: (P, P) -> P, zero: P) {
    (forall p, q, r, s :: Swaps(add, p, q, r, s)) && (forall p :: Cancels(add, zero, p))
  }

  /** The sum of the terms whose bit is set. */
  function Chosen<P>(add: (P, P) -> P, zero: P, ks: seq<P>, bits: seq<bool>): P
    requires |ks| == |bits|
    decreases |ks|
  {
    if ks == [] then zero else add(if bits[0] then ks[0] else zero, Chosen(add, zero, ks[1..], bits[1..]))
  }

  /** Adding bits adds sums. */
  lemma {:induction false} ChosenLinear<P(
      !new)>(add: (P, P) -> P, zero: P, ks: seq<P>, x: seq<bool>, y: seq<bool>, z: seq<bool>)
    requires Group(add, zero) && |ks| == |x| == |y| == |z| && forall i :: 0 <= i < |z| ==> z[i] == (x[i] != y[i])
    ensures Chosen(add, zero, ks, z) == add(Chosen(add, zero, ks, x), Chosen(add, zero, ks, y))
    decreases |ks|
  {
    assert Cancels(add, zero, zero);
    if ks != [] {
      ChosenLinear(add, zero, ks[1..], x[1..], y[1..], z[1..]);
      assert Cancels(add, zero, ks[0]);
      var a, b := if x[0] then ks[0] else zero, if y[0] then ks[0] else zero;
      assert add(a, b) == if z[0] then ks[0] else zero;
      assert Swaps(add, a, b, Chosen(add, zero, ks[1..], x[1..]), Chosen(add, zero, ks[1..], y[1..]));
    }
  }
}

/** Text made of a prefix, a separator and characters for values, the last six of them a checksum. */
module CheckedText {
  import opened Common

  type Byte = x: int | 0 <= x < 256
  type Text = seq<Byte>
  predicate IsUpper(c: Byte) { 65 <= c <= 90 }
  predicate IsLower(c: Byte) { 97 <= c <= 122 }
  predicate Printable(c: Byte) { 33 <= c <= 126 }
  function LowerCase(c: Byte): (r: Byte) ensures !IsUpper(r) { if IsUpper(c) then c + 32 else c }

  const SEPARATOR: Byte := 49

  datatype Scheme<!V(==)> = Scheme(charOf: V -> Byte, valueOf: Byte -> Option<V>, expand: Text -> seq<V>,
                                   checksum: seq<V> -> seq<V>, verify: seq<V> -> bool)

  predicate CharLaw<V(==)>(s: Scheme<V>, v: V) {
    s.valueOf(s.charOf(v)) == Some(v) && Printable(s.charOf(v)) && s.charOf(v) != SEPARATOR && !IsUpper(s.charOf(v))
  }

  predicate ValueLaw<V(==)>(s: Scheme<V>, c: Byte) {
    s.valueOf(c).Some? ==> s.charOf(s.valueOf(c).value) == LowerCase(c)
  }
  predicate ChecksumLaw<V(==)>(s: Scheme<V>, vs: seq<V>) { |s.checksum(vs)| == 6 && s.verify(vs + s.checksum(vs)) }
  predicate UniqueLaw<V(==)>(s: Scheme<V>, vs: seq<V>, six: seq<V>) {
    |six| == 6 && s.verify(vs + six) ==> six == s.checksum(vs)
  }

  ghost predicate Lawfully<V(!new)>(s: Scheme<V>) {
    && (forall v :: CharLaw(s, v)) && (forall c :: ValueLaw(s, c))
    && (forall vs :: ChecksumLaw(s, vs)) && (forall vs, six :: UniqueLaw(s, vs, six))
  }

  function Chars<V(==)>(s: Scheme<V>, vs: seq<V>): (r: Text)
    ensures |r| == |vs| && forall i :: 0 <= i < |vs| ==> r[i] == s.charOf(vs[i])
    decreases |vs|
  {
    if vs == [] then [] else [s.charOf(vs[0])] + Chars(s, vs[1..])
  }

  function Values<V(==)>(s: Scheme<V>, t: Text): (r: Option<seq<V>>)
    ensures r.Some? <==> forall i :: 0 <= i < |t| ==> s.valueOf(t[i]).Some?
    ensures r.Some? ==> |r.value| == |t| && forall i :: 0 <= i < |t| ==> r.value[i] == s.valueOf(t[i]).value
    decreases |t|
  {
    if t == [] then Some([])
    else if s.valueOf(t[0]).None? || Values(s, t[1..]).None? then None
    else Some([s.valueOf(t[0]).value] + Values(s, t[1..]).value)
  }

  function LowerAll(t: Text): (r: Text)
    ensures |r| == |t| && forall i :: 0 <= i < |t| ==> r[i] == LowerCase(t[i])
  {
    if t == [] then [] else [LowerCase(t[0])] + LowerAll(t[1..])
  }

  predicate NoUpper(t: Text) { forall i :: 0 <= i < |t| ==> !IsUpper(t[i]) }
  predicate AllPrintable(t: Text) { forall i :: 0 <= i < |t| ==> Printable(t[i]) }
  predicate MixedCase(t: Text) {
    (exists i :: 0 <= i < |t| && IsLower(t[i])) && (exists i :: 0 <= i < |t| && IsUpper(t[i]))
  }

  /** The last separator, or -1. */
  function LastOne(t: Text): (r: int)
    ensures -1 <= r < |t| && (r >= 0 ==> t[r] == SEPARATOR) && forall i :: r < i < |t| ==> t[i] != SEPARATOR
    decreases |t|
  {
    if t == [] then -1 else if t[|t| - 1] == SEPARATOR then |t| - 1 else LastOne(t[..|t| - 1])
  }

  function Join<V(==)>(s: Scheme<V>, hrp: Text, vs: seq<V>): Text { hrp + [SEPARATOR] + Chars(s, vs) }

  /** `Encode`; the prefix must not hold upper-case letters. */
  function Encode<V(==)>(s: Scheme<V>, hrp: Text, values: seq<V>): Text
    requires NoUpper(hrp)
  {
    Join(s, hrp, values + s.checksum(s.expand(hrp) + values))
  }

  datatype Decoded<V> = Decoded(hrp: Text, values: seq<V>)

  function DecodeAt<V(==)>(s: Scheme<V>, t: Text, pos: nat): Option<Decoded<V>>
    requires pos + 7 <= |t|
  {
    var vs, hrp := Values(s, t[pos + 1..]), LowerAll(t[..pos]);
    if vs.None? || !s.verify(s.expand(hrp) + vs.value) then None else Some(Decoded(hrp, vs.value[..|vs.value| - 6]))
  }

  /** `Decode`. */
  function Decode<V(==)>(s: Scheme<V>, t: Text): Option<Decoded<V>> {
    var pos := LastOne(t);
    if !AllPrintable(t) || MixedCase(t) || |t| > 90 || pos <= 0 || pos + 7 > |t| then None else DecodeAt(s, t, pos)
  }

  lemma Appended<V>(vs: seq<V>, a: seq<V>, b: seq<V>)
    ensures vs + (a + b) == vs + a + b
  {}

  lemma CharsBack<V(!new)>(s: Scheme<V>, vs: seq<V>)
    requires Lawfully(s)
    ensures Values(s, Chars(s, vs)) == Some(vs)
    ensures forall i :: 0 <= i < |vs| ==>
        Chars(s, vs)[i] != SEPARATOR && !IsUpper(Chars(s, vs)[i]) &&
        Printable(Chars(s, vs)[i])
  {
    var t := Chars(s, vs);
    forall i | 0 <= i < |vs| ensures s.valueOf(t[i]) == Some(vs[i]) && t[i] != SEPARATOR && !IsUpper(t[i]) &&
      Printable(t[i]) {
      assert CharLaw(s, vs[i]);
    }
    ValuesAre(s, t, vs);
  }

  lemma {:induction false} ValuesAre<V>(s: Scheme<V>, t: Text, vs: seq<V>)
    requires |t| == |vs| && forall i :: 0 <= i < |vs| ==> s.valueOf(t[i]) == Some(vs[i])
    ensures Values(s, t) == Some(vs)
    decreases |t|
  {
    if t != [] {
      assert s.valueOf(t[0]) == Some(vs[0]);
      ValuesAre(s, t[1..], vs[1..]);
      assert [vs[0]] + vs[1..] == vs;
    }
  }

  lemma JoinParts<V(!new)>(s: Scheme<V>, hrp: Text, vs: seq<V>)
    requires Lawfully(s) && NoUpper(hrp)
    ensures var t := Join(s, hrp, vs);
      && |t| == |hrp| + 1 + |vs| && t[..|hrp|] == hrp && t[|hrp| + 1..] == Chars(s, vs)
      && LastOne(t) == |hrp| && NoUpper(t) && (AllPrintable(t) <==> AllPrintable(hrp))
  {
    var t, cs := Join(s, hrp, vs), Chars(s, vs);
    CharsBack(s, vs);
    TextParts(hrp, cs);
  }

  lemma TextParts(hrp: Text, cs: Text)
    requires NoUpper(hrp) && forall i :: 0 <= i < |cs| ==> cs[i] != SEPARATOR && !IsUpper(cs[i]) && Printable(cs[i])
    ensures var t := hrp + [SEPARATOR] + cs;
      && t[..|hrp|] == hrp && t[|hrp| + 1..] == cs && LastOne(t) == |hrp| && NoUpper(t) &&
        (AllPrintable(t) <==> AllPrintable(hrp))
  {
    var t := hrp + [SEPARATOR] + cs;
    assert t[|hrp|] == SEPARATOR;
    forall i | |hrp| < i < |t| ensures t[i] != SEPARATOR && !IsUpper(t[i]) && Printable(t[i]) {
      assert t[i] == cs[i - |hrp| - 1];
    }
    assert forall i :: 0 <= i < |hrp| ==> t[i] == hrp[i];
  }

  lemma LowerSame(t: Text)
    requires NoUpper(t)
    ensures LowerAll(t) == t
  {}

  lemma RoundTrip<V(!new)>(s: Scheme<V>, hrp: Text, values: seq<V>)
    requires Lawfully(s) && NoUpper(hrp)
    ensures Decode(s, Encode(s, hrp, values)) ==
      if hrp != [] && AllPrintable(hrp) && |hrp| + 7 + |values| <= 90 then Some(Decoded(hrp, values)) else None
  {
    var given := s.expand(hrp) + values;
    var all := values + s.checksum(given);
    assert ChecksumLaw(s, given);
    JoinParts(s, hrp, all);
    CharsBack(s, all);
    LowerSame(hrp);
    Appended(s.expand(hrp), values, s.checksum(given));
    assert all[..|values|] == values;
    assert DecodeAt(s, Join(s, hrp, all), |hrp|) == Some(Decoded(hrp, values));
  }

  lemma BackAgain<V(!new)>(s: Scheme<V>, t: Text)
    requires Lawfully(s) && Decode(s, t).Some?
    ensures var d := Decode(s, t).value; NoUpper(d.hrp) && Encode(s, d.hrp, d.values) == LowerAll(t)
  {
    var pos, d := LastOne(t), Decode(s, t).value;
    var vs := Accepted(s, t, pos);
    ChecksumIs(s, s.expand(d.hrp), vs);
    LowerJoin(s, t, pos, vs);
  }

  /** An accepted list of values ends in the checksum of what comes before. */
  lemma ChecksumIs<V(!new)>(s: Scheme<V>, hrp: seq<V>, vs: seq<V>)
    requires Lawfully(s) && |vs| >= 6 && s.verify(hrp + vs)
    ensures vs == vs[..|vs| - 6] + s.checksum(hrp + vs[..|vs| - 6])
  {
    var n := |vs| - 6;
    assert vs == vs[..n] + vs[n..];
    Appended(hrp, vs[..n], vs[n..]);
    assert UniqueLaw(s, hrp + vs[..n], vs[n..]);
  }

  /** What acceptance says about a text. */
  lemma Accepted<V>(s: Scheme<V>, t: Text, pos: int) returns (vs: seq<V>)
    requires Decode(s, t).Some? && pos == LastOne(t)
    ensures 0 < pos < |t| && Values(s, t[pos + 1..]) == Some(vs) && |vs| >= 6
    ensures Decode(s, t).value == Decoded(LowerAll(t[..pos]), vs[..|vs| - 6])
    ensures s.verify(s.expand(LowerAll(t[..pos])) + vs)
  {
    vs := Values(s, t[pos + 1..]).value;
  }

  lemma LowerChar<V(!new)>(s: Scheme<V>, t: Text, pos: nat, vs: seq<V>, i: nat)
    requires Lawfully(s) && pos < i < |t| && Values(s, t[pos + 1..]) == Some(vs)
    ensures i - pos - 1 < |vs| && s.charOf(vs[i - pos - 1]) == LowerCase(t[i])
  {
    assert t[pos + 1..][i - pos - 1] == t[i];
    assert ValueLaw(s, t[i]);
  }

  lemma LowerJoin<V(!new)>(s: Scheme<V>, t: Text, pos: nat, vs: seq<V>)
    requires Lawfully(s) && pos < |t| && t[pos] == SEPARATOR && Values(s, t[pos + 1..]) == Some(vs)
    ensures Join(s, LowerAll(t[..pos]), vs) == LowerAll(t)
  {
    var r := Join(s, LowerAll(t[..pos]), vs);
    forall i | 0 <= i < |t| ensures r[i] == LowerAll(t)[i] {
      if i > pos { LowerChar(s, t, pos, vs, i); }
    }
  }
}

/** Bech32 (BIP 173).  A 30-bit checksum state is written as its six 5-bit groups, the coefficients
    of a polynomial over GF(32); a group is its five bits. */
module Bech32 {
  import opened LinearCode
  import opened CheckedText
  import opened Common

  datatype Five = Five(b4: bool, b3: bool, b2: bool, b1: bool, b0: bool)

  function Xor(x: Five, y: Five): Five { Five(x.b4 != y.b4, x.b3 != y.b3, x.b2 != y.b2, x.b1 != y.b1, x.b0 != y.b0) }

  const ZERO := Five(false, false, false, false, false)

  datatype Poly = Poly(c0: Five, c1: Five, c2: Five, c3: Five, c4: Five, c5: Five)

  function Add(p: Poly, q: Poly): Poly {
    Poly(Xor(p.c0, q.c0), Xor(p.c1, q.c1), Xor(p.c2, q.c2), Xor(p.c3, q.c3), Xor(p.c4, q.c4), Xor(p.c5, q.c5))
  }

  const ZERO_POLY := Poly(ZERO, ZERO, ZERO, ZERO, ZERO, ZERO)

  // The five constants, 0x3b6a57b2, 0x26508e6d, 0x1ea119fa, 0x3d4233dd and 0x2a1462b3, bit by bit.
  const K1 := Poly(
    Five(true, true, true, false, true), Five(true, false, true, true, false), Five(true, false, true, false, false),
    Five(true, false, true, false, true), Five(true, true, true, false, true), Five(true, false, false, true, false))
  const K2 := Poly(
    Five(true, false, false, true, true), Five(false, false, true, false, true), Five(false, false, false, false, true),
    Five(false, false, false, true, true), Five(true, false, false, true, true), Five(false, true, true, false, true))
  const K4 := Poly(
    Five(false, true, true, true, true), Five(false, true, false, true, false), Five(false, false, false, true, false),
    Five(false, false, true, true, false), Five(false, true, true, true, true), Five(true, true, false, true, false))
  const K8 := Poly(
    Five(true, true, true, true, false), Five(true, false, true, false, false), Five(false, false, true, false, false),
    Five(false, true, true, false, false), Five(true, true, true, true, false), Five(true, true, true, false, true))
  const K16 := Poly(
    Five(true, false, true, false, true), Five(false, false, false, false, true),
    Five(false, true, false, false, false),
    Five(true, true, false, false, false), Five(true, false, true, false, true), Five(true, false, false, true, true))

  /** For each set bit of the top coefficient, its multiple of `x^6` modulo the generator. */
  function Multiples(): (r: seq<Poly>)
    ensures |r| == 5
  {
    [K1, K2, K4, K8, K16]
  }

  function BitsOf(c: Five): (r: seq<bool>)
    ensures |r| == 5 && r[0] == c.b0 && r[1] == c.b1 && r[2] == c.b2 && r[3] == c.b3 && r[4] == c.b4
  {
    [c.b0, c.b1, c.b2, c.b3, c.b4]
  }

  function Mix(c: Five): Poly { Chosen(Add, ZERO_POLY, Multiples(), BitsOf(c)) }

  /** One more value: `c(x) * x + v` modulo the generator. */
  function Step(c: Poly, v: Five): Poly { Add(Poly(c.c1, c.c2, c.c3, c.c4, c.c5, v), Mix(c.c0)) }

  lemma XorSwap(p: Five, q: Five, r: Five, s: Five)
    ensures Xor(Xor(p, q), Xor(r, s)) == Xor(Xor(p, r), Xor(q, s))
  {}

  lemma Swap(p: Poly, q: Poly, r: Poly, s: Poly)
    ensures Swaps(Add, p, q, r, s)
  {
    XorSwap(p.c0, q.c0, r.c0, s.c0);
    XorSwap(p.c1, q.c1, r.c1, s.c1);
    XorSwap(p.c2, q.c2, r.c2, s.c2);
    XorSwap(p.c3, q.c3, r.c3, s.c3);
    XorSwap(p.c4, q.c4, r.c4, s.c4);
    XorSwap(p.c5, q.c5, r.c5, s.c5);
  }

  lemma AddGroup()
    ensures Group(Add, ZERO_POLY)
  {
    forall p, q, r, s ensures Swaps(Add, p, q, r, s) { Swap(p, q, r, s); }
    forall p ensures Cancels(Add, ZERO_POLY, p) {}
  }

  lemma MixLinear(c: Five, d: Five)
    ensures Mix(Xor(c, d)) == Add(Mix(c), Mix(d))
  {
    AddGroup();
    BitsXor(c, d);
    ChosenAdds(Multiples(), BitsOf(c), BitsOf(d), BitsOf(Xor(c, d)));
  }

  lemma BitsXor(c: Five, d: Five)
    ensures forall i :: 0 <= i < 5 ==> BitsOf(Xor(c, d))[i] == (BitsOf(c)[i] != BitsOf(d)[i])
  {
    BitsDiffer(BitsOf(c), BitsOf(d), BitsOf(Xor(c, d)));
  }

  lemma BitsDiffer(x: seq<bool>, y: seq<bool>, z: seq<bool>)
    requires |x| == |y| == |z| == 5 && z[0] == (x[0] != y[0]) && z[1] == (x[1] != y[1]) && z[2] == (x[2] != y[2])
    requires z[3] == (x[3] != y[3]) && z[4] == (x[4] != y[4])
    ensures forall i :: 0 <= i < 5 ==> z[i] == (x[i] != y[i])
  {}

  lemma ChosenAdds(ks: seq<Poly>, x: seq<bool>, y: seq<bool>, z: seq<bool>)
    requires |ks| == |x| == |y| == |z| && forall i :: 0 <= i < |z| ==> z[i] == (x[i] != y[i])
    ensures Chosen(Add, ZERO_POLY, ks, z) == Add(Chosen(Add, ZERO_POLY, ks, x), Chosen(Add, ZERO_POLY, ks, y))
  {
    AddGroup();
    ChosenLinear(Add, ZERO_POLY, ks, x, y, z);
  }

  lemma StepLinear(a: Poly, b: Poly, u: Five, v: Five)
    ensures Step(Add(a, b), Xor(u, v)) == Add(Step(a, u), Step(b, v))
  {
    MixLinear(a.c0, b.c0);
    Swap(Poly(a.c1, a.c2, a.c3, a.c4, a.c5, u), Poly(b.c1, b.c2, b.c3, b.c4, b.c5, v), Mix(a.c0), Mix(b.c0));
  }

  // ------------------------------------------------------------------- the laws

  lemma {:induction false} NoneChosen(ks: seq<Poly>, bits: seq<bool>)
    requires |ks| == |bits| && forall i :: 0 <= i < |bits| ==> !bits[i]
    ensures Chosen(Add, ZERO_POLY, ks, bits) == ZERO_POLY
    decreases |ks|
  {
    if ks != [] { NoneChosen(ks[1..], bits[1..]); }
  }

  /** A state whose top coefficient is 0 is only shifted. */
  lemma StepShifts(c: Poly, v: Five)
    requires c.c0 == ZERO
    ensures Step(c, v) == Poly(c.c1, c.c2, c.c3, c.c4, c.c5, v)
  {
    NoneChosen(Multiples(), BitsOf(ZERO));
  }

  function If(b: bool, p: Poly): Poly { if b then p else ZERO_POLY }

  lemma MixIs(c: Five)
    ensures Mix(c) == Add(If(c.b0, K1),
      Add(If(c.b1, K2), Add(If(c.b2, K4), Add(If(c.b3, K8), Add(If(c.b4, K16), ZERO_POLY)))))
  {
    ChosenFive(K1, K2, K4, K8, K16, c.b0, c.b1, c.b2, c.b3, c.b4);
  }

  lemma ChosenFive(k1: Poly, k2: Poly, k4: Poly, k8: Poly, k16: Poly, b0: bool, b1: bool, b2: bool, b3: bool, b4: bool)
    ensures Chosen(Add, ZERO_POLY, [k1, k2, k4, k8, k16], [b0, b1, b2, b3, b4])
         == Add(If(b0, k1), Add(If(b1, k2), Add(If(b2, k4), Add(If(b3, k8), Add(If(b4, k16), ZERO_POLY)))))
  {
    var ks, bits := [k4, k8, k16], [b2, b3, b4];
    TwoAndThree(k1, k2, k4, k8, k16);
    TwoAndThree(b0, b1, b2, b3, b4);
    ChosenMore(k1, [k2] + ks, b0, [b1] + bits);
    ChosenMore(k2, ks, b1, bits);
    ChosenThree(k4, k8, k16, b2, b3, b4);
  }

  lemma TwoAndThree<T>(a: T, b: T, c: T, d: T, e: T)
    ensures [a, b, c, d, e] == [a] + ([b] + [c, d, e])
  {}

  lemma ChosenThree(k4: Poly, k8: Poly, k16: Poly, b2: bool, b3: bool, b4: bool)
    ensures Chosen(Add, ZERO_POLY, [k4, k8, k16], [b2, b3, b4])
         == Add(If(b2, k4), Add(If(b3, k8), Add(If(b4, k16), ZERO_POLY)))
  {
    ChosenTwo(k8, k16, b3, b4);
    ChosenMore(k4, [k8, k16], b2, [b3, b4]);
    assert [k4, k8, k16] == [k4] + [k8, k16] && [b2, b3, b4] == [b2] + [b3, b4];
  }

  lemma ChosenMore(k: Poly, ks: seq<Poly>, b: bool, bits: seq<bool>)
    requires |ks| == |bits|
    ensures Chosen(Add, ZERO_POLY, [k] + ks, [b] + bits) == Add(If(b, k), Chosen(Add, ZERO_POLY, ks, bits))
  {
    assert ([k] + ks)[1..] == ks && ([b] + bits)[1..] == bits;
  }

  lemma ChosenTwo(k: Poly, l: Poly, b: bool, d: bool)
    ensures Chosen(Add, ZERO_POLY, [k, l], [b, d]) == Add(If(b, k), Add(If(d, l), ZERO_POLY))
  {
    assert [k, l] == [k] + [l] && [b, d] == [b] + [d] && [l] == [l] + [] && [d] == [d] + [];
    ChosenMore(l, [], d, []);
    ChosenMore(k, [l], b, [d]);
  }

  /** The multiples are independent in their lowest coefficient, so only 0 mixes to 0. */
  lemma MixKernel(c: Five)
    requires Mix(c).c5 == ZERO
    ensures c == ZERO
  {
    MixIs(c);
  }

  lemma StepKernel(c: Poly)
    requires Step(c, ZERO) == ZERO_POLY
    ensures c == ZERO_POLY
  {
    MixKernel(c.c0);
    StepShifts(c, ZERO);
  }

  /** At most `k` coefficients. */
  predicate Short(k: nat, c: Poly) {
    && (k < 6 ==> c.c0 == ZERO) && (k < 5 ==> c.c1 == ZERO) && (k < 4 ==> c.c2 == ZERO)
    && (k < 3 ==> c.c3 == ZERO) && (k < 2 ==> c.c4 == ZERO) && (k < 1 ==> c.c5 == ZERO)
  }

  const CODE: Code<Poly, Five> := Code(Step, Add, Xor, ZERO_POLY, ZERO, c => true, v => true, Short)

  lemma LinearLaw(a: Poly, b: Poly, u: Five, v: Five)
    ensures LinearAt(CODE, a, b, u, v)
  {
    StepLinear(a, b, u, v);
  }

  lemma AddLaw(a: Poly, b: Poly)
    ensures AddAt(CODE, a, b)
  {}

  lemma StepLaw(c: Poly, v: Five)
    ensures StepAt(CODE, c, v)
  {
    if Step(c, ZERO) == ZERO_POLY { StepKernel(c); }
  }

  lemma ShortLaw(k: nat, c: Poly, v: Five)
    ensures ShortAt(CODE, k, c, v)
  {
    if c.c0 == ZERO { StepShifts(c, v); }
  }

  /** The Bech32 checksum obeys the laws of a linear code. */
  lemma Lawful()
    ensures Laws(CODE)
  {
    forall a, b, u, v ensures LinearAt(CODE, a, b, u, v) { LinearLaw(a, b, u, v); }
    forall a, b ensures AddAt(CODE, a, b) { AddLaw(a, b); }
    forall a, b ensures AddValueAt(CODE, a, b) {}
    forall c, v ensures StepAt(CODE, c, v) { StepLaw(c, v); }
    forall k, c, v ensures ShortAt(CODE, k, c, v) { ShortLaw(k, c, v); }
  }

  // --------------------------------------------------------------- the checksum

  const ONE := Poly(ZERO, ZERO, ZERO, ZERO, ZERO, Five(false, false, false, false, true))

  function PolyMod(vs: seq<Five>): Poly { From(CODE, ONE, vs) }

  function Groups(m: Poly): seq<Five> { [m.c0, m.c1, m.c2, m.c3, m.c4, m.c5] }

  const SIX := [ZERO, ZERO, ZERO, ZERO, ZERO, ZERO]

  function CreateChecksum(vs: seq<Five>): seq<Five> { Groups(Add(PolyMod(vs + SIX), ONE)) }

  predicate Verify(vs: seq<Five>) { PolyMod(vs) == ONE }

  /** Six values after a zero state are the coefficients. */
  lemma PushSix(m: Poly)
    ensures From(CODE, ZERO_POLY, Groups(m)) == m
  {
    var p1 := Poly(ZERO, ZERO, ZERO, ZERO, ZERO, m.c0);
    var p2 := Poly(ZERO, ZERO, ZERO, ZERO, m.c0, m.c1);
    var p3 := Poly(ZERO, ZERO, ZERO, m.c0, m.c1, m.c2);
    var p4 := Poly(ZERO, ZERO, m.c0, m.c1, m.c2, m.c3);
    var p5 := Poly(ZERO, m.c0, m.c1, m.c2, m.c3, m.c4);
    StepShifts(ZERO_POLY, m.c0);
    StepShifts(p1, m.c1);
    StepShifts(p2, m.c2);
    StepShifts(p3, m.c3);
    StepShifts(p4, m.c4);
    StepShifts(p5, m.c5);
    PushOne(ZERO_POLY, p1, m.c0, [m.c1, m.c2, m.c3, m.c4, m.c5]);
    PushOne(p1, p2, m.c1, [m.c2, m.c3, m.c4, m.c5]);
    PushOne(p2, p3, m.c2, [m.c3, m.c4, m.c5]);
    PushOne(p3, p4, m.c3, [m.c4, m.c5]);
    PushOne(p4, p5, m.c4, [m.c5]);
    PushOne(p5, m, m.c5, []);
  }

  lemma PushOne(p: Poly, q: Poly, v: Five, rest: seq<Five>)
    requires Step(p, v) == q
    ensures From(CODE, p, [v] + rest) == From(CODE, q, rest)
  {
    assert ([v] + rest)[1..] == rest;
  }

  lemma AddCancels(a: Poly, b: Poly)
    ensures Add(a, Add(a, b)) == b && Add(a, ZERO_POLY) == a && Add(ZERO_POLY, a) == a
  {
    XorCancels(a.c0, b.c0);
    XorCancels(a.c1, b.c1);
    XorCancels(a.c2, b.c2);
    XorCancels(a.c3, b.c3);
    XorCancels(a.c4, b.c4);
    XorCancels(a.c5, b.c5);
  }

  lemma XorCancels(a: Five, b: Five)
    ensures Xor(a, Xor(a, b)) == b && Xor(a, ZERO) == a && Xor(ZERO, a) == a
  {}

  lemma SixZeros(vs: seq<Five>)
    requires |vs| == 6
    ensures AddAll(CODE, SIX, vs) == vs
  {
    forall i | 0 <= i < 6 ensures AddAll(CODE, SIX, vs)[i] == vs[i] {
      AddAllAt(CODE, SIX, vs, i);
      XorCancels(vs[i], ZERO);
    }
  }

  /** The checksum makes the list verify, */
  lemma ChecksumVerifies(vs: seq<Five>)
    ensures Verify(vs + CreateChecksum(vs))
  {
    Lawful();
    var s, m := From(CODE, ONE, vs), Add(PolyMod(vs + SIX), ONE);
    FromConcat(CODE, ONE, vs, SIX);
    FromConcat(CODE, ONE, vs, Groups(m));
    FromLinear(CODE, s, ZERO_POLY, SIX, Groups(m));
    SixZeros(Groups(m));
    PushSix(m);
    AddCancels(s, ZERO_POLY);
    AddCancels(PolyMod(vs + SIX), ONE);
  }

  /** and no other six values do. */
  lemma ChecksumUnique(vs: seq<Five>, six: seq<Five>)
    requires |six| == 6 && Verify(vs + six)
    ensures six == CreateChecksum(vs)
  {
    Lawful();
    ChecksumVerifies(vs);
    FromConcat(CODE, ONE, vs, six);
    FromConcat(CODE, ONE, vs, CreateChecksum(vs));
    WindowInjective(CODE, From(CODE, ONE, vs), six, CreateChecksum(vs));
  }

  /** Two lists of any length that differ only within six consecutive values cannot both verify. */
  lemma BurstRejected(head: seq<Five>, us: seq<Five>, vs: seq<Five>, tail: seq<Five>)
    requires |us| == |vs| <= 6 && us != vs && Verify(head + us + tail)
    ensures !Verify(head + vs + tail)
  {
    Lawful();
    BurstDetected(CODE, ONE, head, us, vs, tail);
  }

  // ------------------------------------------------------------- the characters

  function Num(v: Five): (n: nat)
    ensures n < 32
  {
    (if v.b4 then 16 else 0) + (if v.b3 then 8 else 0) + (if v.b2 then 4 else 0) + (if v.b1 then 2 else 0) +
      (if v.b0 then 1 else 0)
  }

  function Digit(n: nat): Five
    requires n < 32
  {
    Five(n >= 16, n % 16 >= 8, n % 8 >= 4, n % 4 >= 2, n % 2 == 1)
  }

  lemma DigitNum(v: Five)
    ensures Digit(Num(v)) == v
  {}

  lemma NumDigit(n: nat)
    requires n < 32
    ensures Num(Digit(n)) == n
  {}

  /** The character set "qpzry9x8gf2tvdw0s3jn54khce6mua7l", by index and by character code. */
  function CharCode(n: nat): Byte
    requires n < 32
  {
    if n < 4 then (if n < 2 then (if n < 1 then 113 else 112) else (if n < 3 then 122 else 114))
    else if n < 8 then (if n < 6 then (if n < 5 then 121 else 57) else (if n < 7 then 120 else 56))
    else if n < 12 then (if n < 10 then (if n < 9 then 103 else 102) else (if n < 11 then 50 else 116))
    else if n < 16 then (if n < 14 then (if n < 13 then 118 else 100) else (if n < 15 then 119 else 48))
    else if n < 20 then (if n < 18 then (if n < 17 then 115 else 51) else (if n < 19 then 106 else 110))
    else if n < 24 then (if n < 22 then (if n < 21 then 53 else 52) else (if n < 23 then 107 else 104))
    else if n < 28 then (if n < 26 then (if n < 25 then 99 else 101) else (if n < 27 then 54 else 109))
    else (if n < 30 then (if n < 29 then 117 else 97) else (if n < 31 then 55 else 108))
  }

  function CodeIndex(c: Byte): int {
    if c == 113 then 0
    else if c == 112 then 1
    else if c == 122 then 2
    else if c == 114 then 3
    else if c == 121 then 4
    else if c == 57 then 5
    else if c == 120 then 6
    else if c == 56 then 7
    else if c == 103 then 8
    else if c == 102 then 9
    else if c == 50 then 10
    else if c == 116 then 11
    else if c == 118 then 12
    else if c == 100 then 13
    else if c == 119 then 14
    else if c == 48 then 15
    else if c == 115 then 16
    else if c == 51 then 17
    else if c == 106 then 18
    else if c == 110 then 19
    else if c == 53 then 20
    else if c == 52 then 21
    else if c == 107 then 22
    else if c == 104 then 23
    else if c == 99 then 24
    else if c == 101 then 25
    else if c == 54 then 26
    else if c == 109 then 27
    else if c == 117 then 28
    else if c == 97 then 29
    else if c == 55 then 30
    else if c == 108 then 31
    else -1
  }

  lemma CharIndex(n: nat)
    requires n < 32
    ensures CodeIndex(CharCode(n)) == n && 33 <= CharCode(n) <= 126 && CharCode(n) != 49 && !IsUpper(CharCode(n))
  {}

  lemma IndexChar(c: Byte)
    ensures -1 <= CodeIndex(c) < 32 && (CodeIndex(c) != -1 ==> CharCode(CodeIndex(c)) == c)
  {}

  function CharOf(v: Five): Byte { CharCode(Num(v)) }

  /** The value of a character, in either case. */
  function ValueOf(c: Byte): Option<Five> {
    var n := CodeIndex(LowerCase(c));
    IndexChar(LowerCase(c));
    if n == -1 then None else Some(Digit(n))
  }

  lemma ValueOfChar(v: Five)
    ensures ValueOf(CharOf(v)) == Some(v) && Printable(CharOf(v)) && CharOf(v) != 49 && !IsUpper(CharOf(v))
  {
    CharIndex(Num(v));
    DigitNum(v);
  }

  lemma CharOfValue(c: Byte)
    ensures ValueOf(c).Some? ==> CharOf(ValueOf(c).value) == LowerCase(c)
  {
    IndexChar(LowerCase(c));
    if ValueOf(c).Some? { NumDigit(CodeIndex(LowerCase(c))); }
  }

  // -------------------------------------------------------------------- the text

  function Highs(hrp: Text): seq<Five> { seq(|hrp|, i requires 0 <= i < |hrp| => Digit(hrp[i] / 32)) }
  function Lows(hrp: Text): seq<Five> { seq(|hrp|, i requires 0 <= i < |hrp| => Digit(hrp[i] % 32)) }

  /** `ExpandHRP`: the high bits of every character, a zero, and the low bits. */
  function Expand(hrp: Text): seq<Five> { Highs(hrp) + [ZERO] + Lows(hrp) }

  const SCHEME: Scheme<Five> := Scheme(CharOf, ValueOf, Expand, CreateChecksum, Verify)

  lemma SchemeLawful()
    ensures Lawfully(SCHEME)
  {
    forall v ensures CharLaw(SCHEME, v) { ValueOfChar(v); }
    forall c ensures ValueLaw(SCHEME, c) { CharOfValue(c); }
    forall vs ensures ChecksumLaw(SCHEME, vs) { ChecksumVerifies(vs); }
    forall vs, six ensures UniqueLaw(SCHEME, vs, six) { UniqueSix(vs, six); }
  }

  lemma UniqueSix(vs: seq<Five>, six: seq<Five>)
    ensures UniqueLaw(SCHEME, vs, six)
  {
    if |six| == 6 && Verify(vs + six) { ChecksumUnique(vs, six); }
  }

  /** Decoding inverts encoding exactly when the prefix is not empty, all printable, and the whole is
      at most 90 characters long. */
  lemma DecodeEncode(hrp: Text, values: seq<Five>)
    requires NoUpper(hrp)
    ensures Decode(SCHEME, Encode(SCHEME, hrp, values)) ==
      if hrp != [] && AllPrintable(hrp) && |hrp| + 7 + |values| <= 90 then Some(Decoded(hrp, values)) else None
  {
    SchemeLawful();
    RoundTrip(SCHEME, hrp, values);
  }

  /** Encoding inverts decoding: an accepted text is the encoding of what it decodes to, up to case. */
  lemma EncodeDecode(t: Text)
    requires Decode(SCHEME, t).Some?
    ensures var d := Decode(SCHEME, t).value; NoUpper(d.hrp) && Encode(SCHEME, d.hrp, d.values) == LowerAll(t)
  {
    SchemeLawful();
    BackAgain(SCHEME, t);
  }
}
