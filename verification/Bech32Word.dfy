/** The checksum on 32-bit words: the six coefficients of a state lie side by side, the first highest. */
module Bech32Word {
  import opened Bech32
  import opened LinearCode

  function Bit(b: bool, n: bv32): bv32 { if b then n else 0 }

  function Word5(v: Five): bv32 { Bit(v.b4, 16) | Bit(v.b3, 8) | Bit(v.b2, 4) | Bit(v.b1, 2) | Bit(v.b0, 1) }

  function Packed(a: bv32, b: bv32, c: bv32, d: bv32, e: bv32, f: bv32): bv32 {
    (a << 25) | (b << 20) | (c << 15) | (d << 10) | (e << 5) | f
  }

  function Word(p: Poly): bv32 {
    Packed(Word5(p.c0), Word5(p.c1), Word5(p.c2), Word5(p.c3), Word5(p.c4), Word5(p.c5))
  }

  predicate Small(a: bv32, b: bv32, c: bv32, d: bv32, e: bv32, f: bv32) {
    a <= 31 && b <= 31 && c <= 31 && d <= 31 && e <= 31 && f <= 31
  }

  lemma Word5Small(v: Five)
    ensures Word5(v) <= 31
  {}

  lemma GroupsSmall(p: Poly)
    ensures Small(Word5(p.c0), Word5(p.c1), Word5(p.c2), Word5(p.c3), Word5(p.c4), Word5(p.c5))
  {
    Word5Small(p.c0);
    Word5Small(p.c1);
    Word5Small(p.c2);
    Word5Small(p.c3);
    Word5Small(p.c4);
    Word5Small(p.c5);
  }

  lemma BitTests(v: Five)
    ensures (Word5(v) & 1 != 0) == v.b0 && (Word5(v) & 2 != 0) == v.b1 && (Word5(v) & 4 != 0) == v.b2
    ensures (Word5(v) & 8 != 0) == v.b3 && (Word5(v) & 16 != 0) == v.b4
  {}

  lemma Word5Injective(x: Five, y: Five)
    requires Word5(x) == Word5(y)
    ensures x == y
  {
    BitTests(x);
    BitTests(y);
  }

  lemma XorWord5(x: Five, y: Five)
    ensures Word5(Xor(x, y)) == Word5(x) ^ Word5(y)
  {
    if x.b4 {} else {}
    if x.b3 {} else {}
    if x.b2 {} else {}
    if x.b1 {} else {}
    if x.b0 {} else {}
  }

  lemma PackedTop(a: bv32, b: bv32, c: bv32, d: bv32, e: bv32, f: bv32)
    requires Small(a, b, c, d, e, f)
    ensures Packed(a, b, c, d, e, f) >> 25 == a
  {}

  lemma PackedShift(a: bv32, b: bv32, c: bv32, d: bv32, e: bv32, f: bv32, v: bv32)
    requires Small(a, b, c, d, e, f) && v <= 31
    ensures ((Packed(a, b, c, d, e, f) & 0x1ffffff) << 5) ^ v == Packed(b, c, d, e, f, v)
  {}

  lemma PackedXor(
      a: bv32, b: bv32, c: bv32, d: bv32, e: bv32, f: bv32, g: bv32, h: bv32, i: bv32, j: bv32, k: bv32, l: bv32)
    requires Small(a, b, c, d, e, f) && Small(g, h, i, j, k, l)
    ensures Packed(a ^ g, b ^ h, c ^ i, d ^ j, e ^ k, f ^ l) == Packed(a, b, c, d, e, f) ^ Packed(g, h, i, j, k, l)
  {}

  /** The groups of a word, taken out one by one. */
  lemma PackedGroups(a: bv32, b: bv32, c: bv32, d: bv32, e: bv32, f: bv32)
    requires Small(a, b, c, d, e, f)
    ensures var w := Packed(a, b, c, d, e, f);
      && (w >> 25) & 31 == a && (w >> 20) & 31 == b && (w >> 15) & 31 == c
      && (w >> 10) & 31 == d && (w >> 5) & 31 == e && w & 31 == f
  {}

  lemma AddWord(p: Poly, q: Poly)
    ensures Word(Add(p, q)) == Word(p) ^ Word(q)
  {
    GroupsSmall(p);
    GroupsSmall(q);
    XorWord5(p.c0, q.c0);
    XorWord5(p.c1, q.c1);
    XorWord5(p.c2, q.c2);
    XorWord5(p.c3, q.c3);
    XorWord5(p.c4, q.c4);
    XorWord5(p.c5, q.c5);
    PackedXor(Word5(p.c0), Word5(p.c1), Word5(p.c2), Word5(p.c3), Word5(p.c4), Word5(p.c5),
      Word5(q.c0), Word5(q.c1), Word5(q.c2), Word5(q.c3), Word5(q.c4), Word5(q.c5));
  }

  lemma WordInjective(p: Poly, q: Poly)
    requires Word(p) == Word(q)
    ensures p == q
  {
    GroupsSmall(p);
    GroupsSmall(q);
    PackedGroups(Word5(p.c0), Word5(p.c1), Word5(p.c2), Word5(p.c3), Word5(p.c4), Word5(p.c5));
    PackedGroups(Word5(q.c0), Word5(q.c1), Word5(q.c2), Word5(q.c3), Word5(q.c4), Word5(q.c5));
    Word5Injective(p.c0, q.c0);
    Word5Injective(p.c1, q.c1);
    Word5Injective(p.c2, q.c2);
    Word5Injective(p.c3, q.c3);
    Word5Injective(p.c4, q.c4);
    Word5Injective(p.c5, q.c5);
  }

  /** The constants of the source. */
  lemma Constants()
    ensures Word(K1) == 0x3b6a57b2 && Word(K2) == 0x26508e6d && Word(K4) == 0x1ea119fa
    ensures Word(K8) == 0x3d4233dd && Word(K16) == 0x2a1462b3 && Word(ONE) == 1 && Word(ZERO_POLY) == 0
  {}

  lemma IfWord(b: bool, p: Poly)
    ensures Word(If(b, p)) == Bit(b, Word(p))
  {
    Constants();
  }

  // ---------------------------------------------------- the feedback, by its laws

  /** Exclusive or of words, and the words of states; only their laws are used. */
  datatype Machine = Machine(xor: (bv32, bv32) -> bv32, word: Poly -> bv32)

  predicate XorAt(m: Machine, a: bv32, b: bv32) { m.xor(a, b) == a ^ b }
  predicate AssociatesAt(m: Machine, a: bv32, b: bv32, c: bv32) { m.xor(m.xor(a, b), c) == m.xor(a, m.xor(b, c)) }
  predicate AddsAt(m: Machine, p: Poly, q: Poly) { m.word(Add(p, q)) == m.xor(m.word(p), m.word(q)) }

  ghost predicate Lawful(m: Machine) {
    && (forall a: bv32, b: bv32 :: XorAt(m, a, b)) && (forall p: Poly, q: Poly :: AddsAt(m, p, q))
    && (forall a: bv32, b: bv32, c: bv32 :: AssociatesAt(m, a, b, c))
  }

  const MACHINE := Machine((a: bv32, b: bv32) => a ^ b, Word)

  lemma XorAssociative(a: bv32, b: bv32, c: bv32)
    ensures (a ^ b) ^ c == a ^ (b ^ c)
  {}

  lemma MachineLawful()
    ensures Lawful(MACHINE)
  {
    forall a: bv32, b: bv32 ensures XorAt(MACHINE, a, b) { XorLaw(a, b); }
    forall a: bv32, b: bv32, c: bv32 ensures AssociatesAt(MACHINE, a, b, c) { AssociatesLaw(a, b, c); }
    forall p: Poly, q: Poly ensures AddsAt(MACHINE, p, q) { AddsLaw(p, q); }
  }

  lemma XorLaw(a: bv32, b: bv32)
    ensures XorAt(MACHINE, a, b)
  {}

  lemma AssociatesLaw(a: bv32, b: bv32, c: bv32)
    ensures AssociatesAt(MACHINE, a, b, c)
  {
    XorAssociative(a, b, c);
  }

  lemma AddsLaw(p: Poly, q: Poly)
    ensures AddsAt(MACHINE, p, q)
  {
    AddWord(p, q);
  }

  /** One multiple of the generator's constant after the other. */
  function Fed(m: Machine, c: bv32, t0: bv32, t1: bv32, t2: bv32, t3: bv32, t4: bv32): bv32 {
    m.xor(m.xor(m.xor(m.xor(m.xor(c, t0), t1), t2), t3), t4)
  }

  lemma FedAll(m: Machine, c: bv32, t0: bv32, t1: bv32, t2: bv32, t3: bv32, t4: bv32)
    requires Lawful(m)
    ensures Fed(m, c, t0, t1, t2, t3, t4) == m.xor(c, m.xor(t0, m.xor(t1, m.xor(t2, m.xor(t3, t4)))))
  {
    var x01 := m.xor(c, t0);
    assert AssociatesAt(m, c, t0, m.xor(t1, m.xor(t2, m.xor(t3, t4))));
    assert AssociatesAt(m, x01, t1, m.xor(t2, m.xor(t3, t4)));
    assert AssociatesAt(m, m.xor(x01, t1), t2, m.xor(t3, t4));
    assert AssociatesAt(m, m.xor(m.xor(x01, t1), t2), t3, t4);
  }

  /** Five states added to a sixth. */
  lemma SumWord(m: Machine, s: Poly, p0: Poly, p1: Poly, p2: Poly, p3: Poly, p4: Poly)
    requires Lawful(m)
    ensures m.word(Add(s, Add(p0, Add(p1, Add(p2, Add(p3, p4)))))) ==
      Fed(m, m.word(s), m.word(p0), m.word(p1), m.word(p2), m.word(p3), m.word(p4))
  {
    assert AddsAt(m, p3, p4) && AddsAt(m, p2, Add(p3, p4)) && AddsAt(m, p1, Add(p2, Add(p3, p4)));
    assert AddsAt(m, p0, Add(p1, Add(p2, Add(p3, p4))));
    assert AddsAt(m, s, Add(p0, Add(p1, Add(p2, Add(p3, p4)))));
    FedAll(m, m.word(s), m.word(p0), m.word(p1), m.word(p2), m.word(p3), m.word(p4));
  }

  lemma FedWord(m: Machine, p: Poly, v: Five, shifted: Poly)
    requires Lawful(m) && shifted == Poly(p.c1, p.c2, p.c3, p.c4, p.c5, v)
    ensures m.word(Step(p, v)) == Fed(m, m.word(shifted), m.word(If(p.c0.b0, K1)), m.word(If(p.c0.b1, K2)),
      m.word(If(p.c0.b2, K4)), m.word(If(p.c0.b3, K8)), m.word(If(p.c0.b4, K16)))
  {
    var c := p.c0;
    MixIs(c);
    AddCancels(If(c.b4, K16), ZERO_POLY);
    SumWord(m, shifted, If(c.b0, K1), If(c.b1, K2), If(c.b2, K4), If(c.b3, K8), If(c.b4, K16));
  }

  method XorIf(c: bv32, b: bool, k: bv32, ghost m: Machine) returns (d: bv32)
    requires Lawful(m)
    ensures d == m.xor(c, Bit(b, k))
  {
    assert XorAt(m, c, Bit(b, k));
    d := c;
    if b { d := d ^ k; } else { XorZero(c); }
  }

  lemma XorZero(c: bv32)
    ensures c ^ 0 == c
  {}

  method Feed(c: bv32, b0: bool, b1: bool, b2: bool, b3: bool, b4: bool, ghost m: Machine) returns (d: bv32)
    requires Lawful(m)
    ensures d == Fed(m, c, Bit(b0, 0x3b6a57b2), Bit(b1, 0x26508e6d), Bit(b2, 0x1ea119fa), Bit(b3, 0x3d4233dd),
      Bit(b4, 0x2a1462b3))
  {
    d := XorIf(c, b0, 0x3b6a57b2, m);
    d := XorIf(d, b1, 0x26508e6d, m);
    d := XorIf(d, b2, 0x1ea119fa, m);
    d := XorIf(d, b3, 0x3d4233dd, m);
    d := XorIf(d, b4, 0x2a1462b3, m);
  }

  lemma IfWords(c: Five)
    ensures Word(If(c.b0, K1)) == Bit(c.b0, 0x3b6a57b2) && Word(If(c.b1, K2)) == Bit(c.b1, 0x26508e6d)
    ensures Word(If(c.b2, K4)) == Bit(c.b2, 0x1ea119fa) && Word(If(c.b3, K8)) == Bit(c.b3, 0x3d4233dd)
    ensures Word(If(c.b4, K16)) == Bit(c.b4, 0x2a1462b3)
  {
    Constants();
    IfWord(c.b0, K1);
    IfWord(c.b1, K2);
    IfWord(c.b2, K4);
    IfWord(c.b3, K8);
    IfWord(c.b4, K16);
  }

  lemma ShiftWord(c: bv32, v: Five, p: Poly)
    requires c == Word(p)
    ensures c >> 25 == Word5(p.c0)
    ensures ((c & 0x1ffffff) << 5) ^ Word5(v) == Word(Poly(p.c1, p.c2, p.c3, p.c4, p.c5, v))
  {
    GroupsSmall(p);
    Word5Small(v);
    PackedTop(Word5(p.c0), Word5(p.c1), Word5(p.c2), Word5(p.c3), Word5(p.c4), Word5(p.c5));
    PackedShift(Word5(p.c0), Word5(p.c1), Word5(p.c2), Word5(p.c3), Word5(p.c4), Word5(p.c5), Word5(v));
  }

  lemma TopBits(c: bv32, p: Poly)
    requires c >> 25 == Word5(p.c0)
    ensures ((c >> 25) & 1 != 0) == p.c0.b0 && ((c >> 25) & 2 != 0) == p.c0.b1 && ((c >> 25) & 4 != 0) == p.c0.b2
    ensures ((c >> 25) & 8 != 0) == p.c0.b3 && ((c >> 25) & 16 != 0) == p.c0.b4
  {
    BitTests(p.c0);
  }

  /** One round of the loop, in words. */
  method StepWord(c: bv32, v: Five, ghost p: Poly) returns (d: bv32)
    requires c == Word(p)
    ensures d == Word(Step(p, v))
  {
    ghost var shifted := Poly(p.c1, p.c2, p.c3, p.c4, p.c5, v);
    ShiftWord(c, v, p);
    TopBits(c, p);
    MachineLawful();
    FedWord(MACHINE, p, v, shifted);
    IfWords(p.c0);
    var c0 := c >> 25;
    d := Feed(((c & 0x1ffffff) << 5) ^ Word5(v), c0 & 1 != 0, c0 & 2 != 0, c0 & 4 != 0, c0 & 8 != 0, c0 & 16 != 0,
      MACHINE);
  }

  /** `PolyMod`. */
  method ComputePolyMod(vs: seq<Five>) returns (c: bv32)
    ensures c == Word(PolyMod(vs))
  {
    Constants();
    c := 1;
    ghost var p := ONE;
    var i := 0;
    assert vs[0..] == vs;
    while i < |vs|
      invariant i <= |vs| && c == Word(p) && From(CODE, p, vs[i..]) == PolyMod(vs)
    {
      assert vs[i..][1..] == vs[i + 1..];
      c := StepWord(c, vs[i], p);
      p := Step(p, vs[i]);
      i := i + 1;
    }
  }

  method VerifyChecksum(vs: seq<Five>) returns (ok: bool)
    ensures ok <==> Verify(vs)
  {
    var c := ComputePolyMod(vs);
    Constants();
    if c == 1 { WordInjective(PolyMod(vs), ONE); }
    ok := c == 1;
  }

  lemma GroupsOfWord(w: bv32, p: Poly)
    requires w == Word(p)
    ensures (w >> 25) & 31 == Word5(p.c0) && (w >> 20) & 31 == Word5(p.c1) && (w >> 15) & 31 == Word5(p.c2)
    ensures (w >> 10) & 31 == Word5(p.c3) && (w >> 5) & 31 == Word5(p.c4) && w & 31 == Word5(p.c5)
  {
    GroupsSmall(p);
    PackedGroups(Word5(p.c0), Word5(p.c1), Word5(p.c2), Word5(p.c3), Word5(p.c4), Word5(p.c5));
  }

  lemma ChecksumWord(p: Poly)
    ensures Word(Add(p, ONE)) == Word(p) ^ 1
  {
    Constants();
    AddWord(p, ONE);
  }

  /** A word cut into its six groups, the highest first. */
  method Cut(w: bv32, ghost p: Poly) returns (ret: seq<bv32>)
    requires w == Word(p)
    ensures |ret| == 6 && forall i :: 0 <= i < 6 ==> ret[i] == Word5(Groups(p)[i])
  {
    GroupsOfWord(w, p);
    ret := [(w >> 25) & 31, (w >> 20) & 31, (w >> 15) & 31, (w >> 10) & 31, (w >> 5) & 31, w & 31];
  }

  /** The six groups of the word that completes a list. */
  method ComputeChecksum(vs: seq<Five>) returns (ret: seq<bv32>)
    ensures |ret| == 6 && forall i :: 0 <= i < 6 ==> ret[i] == Word5(CreateChecksum(vs)[i])
  {
    var m := ComputePolyMod(vs + SIX);
    ChecksumWord(PolyMod(vs + SIX));
    ret := Cut(m ^ 1, Add(PolyMod(vs + SIX), ONE));
  }
}
