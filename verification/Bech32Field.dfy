/** Division of polynomials by a fixed monic polynomial of degree six, over any ring whose addition is
    its own inverse.  Polynomials list their coefficients from the highest power down. */
module Division {
  /** Addition, zero, and the six lower coefficients of `a` times the divisor, whose highest is `a`. */
  datatype Ring<!E> = Ring(add: (E, E) -> E, zero: E, lower: E -> seq<E>)

  predicate AddLaw<E(==)>(r: Ring<E>, a: E, b: E, c: E) {
    && r.add(r.add(a, b), c) == r.add(a, r.add(b, c)) && r.add(a, r.zero) == a && r.add(r.zero, a) == a
    && r.add(a, r.add(a, b)) == b && r.add(a, r.add(b, a)) == b
  }

  predicate LowerLaw<E>(r: Ring<E>, a: E) { |r.lower(a)| == 6 }

  ghost predicate Laws<E(!new)>(r: Ring<E>) {
    (forall a, b, c :: AddLaw(r, a, b, c)) && (forall a :: LowerLaw(r, a))
  }

  function Zeros<E>(r: Ring<E>, n: nat): (z: seq<E>)
    ensures |z| == n && forall i :: 0 <= i < n ==> z[i] == r.zero
  {
    seq(n, _ => r.zero)
  }

  function Sum<E>(r: Ring<E>, p: seq<E>, q: seq<E>): (t: seq<E>)
    requires |p| == |q|
    ensures |t| == |p| && forall i :: 0 <= i < |p| ==> t[i] == r.add(p[i], q[i])
  {
    seq(|p|, i requires 0 <= i < |p| => r.add(p[i], q[i]))
  }

  /** `a` times the divisor. */
  function Multiple<E>(r: Ring<E>, a: E): (m: seq<E>)
    ensures |m| == 1 + |r.lower(a)|
  {
    [a] + r.lower(a)
  }

  /** `q` times the divisor, by Horner's rule. */
  ghost function Product<E(!new)>(r: Ring<E>, q: seq<E>): (p: seq<E>)
    requires Laws(r)
    ensures |p| == |q| + 6
    decreases |q|
  {
    if q == [] then Zeros(r, 6)
    else
      var n := |q| - 1;
      assert LowerLaw(r, q[n]);
      Sum(r, Product(r, q[..n]) + [r.zero], Zeros(r, n) + Multiple(r, q[n]))
  }

  lemma ProductAppend<E(!new)>(r: Ring<E>, q: seq<E>, a: E, p: seq<E>)
    requires Laws(r) && p == Product(r, q)
    ensures |r.lower(a)| == 6 && Product(r, q + [a]) == Sum(r, p + [r.zero], Zeros(r, |q|) + Multiple(r, a))
  {
    assert LowerLaw(r, a);
    assert (q + [a])[..|q|] == q;
  }

  /** `vs` is `q` times the divisor plus `c`, which has degree less than six. */
  ghost predicate Divided<E(!new)>(r: Ring<E>, vs: seq<E>, q: seq<E>, c: seq<E>)
    requires Laws(r)
  {
    |c| == 6 && |vs| == |q| + 6 && vs == Sum(r, Product(r, q), Zeros(r, |q|) + c)
  }

  /** One more coefficient: shift it in and divide the highest one out. */
  function Step<E>(r: Ring<E>, c: seq<E>, v: E): seq<E>
    requires |c| == 6 && |r.lower(c[0])| == 6
  {
    Sum(r, c[1..] + [v], r.lower(c[0]))
  }

  lemma StepDivides<E(!new)>(r: Ring<E>, c: seq<E>, v: E, d: seq<E>)
    requires Laws(r) && |c| == 6 && |r.lower(c[0])| == 6 && d == Step(r, c, v)
    ensures Sum(r, Multiple(r, c[0]), [r.zero] + d) == c + [v]
  {
    forall i | 0 <= i < 7 ensures r.add(Multiple(r, c[0])[i], ([r.zero] + d)[i]) == (c + [v])[i] {
      if i == 0 { assert AddLaw(r, c[0], r.zero, r.zero); }
      else { assert AddLaw(r, r.lower(c[0])[i - 1], (c[1..] + [v])[i - 1], r.zero); }
    }
  }

  lemma SumRegroups<E(!new)>(r: Ring<E>, a: seq<E>, b: seq<E>, c: seq<E>)
    requires Laws(r) && |a| == |b| == |c|
    ensures Sum(r, Sum(r, a, b), c) == Sum(r, a, Sum(r, b, c))
  {
    forall i | 0 <= i < |a| ensures r.add(r.add(a[i], b[i]), c[i]) == r.add(a[i], r.add(b[i], c[i])) {
      assert AddLaw(r, a[i], b[i], c[i]);
    }
  }

  lemma SumPadded<E(!new)>(r: Ring<E>, n: nat, a: seq<E>, b: seq<E>)
    requires Laws(r) && |a| == |b|
    ensures Sum(r, Zeros(r, n) + a, Zeros(r, n) + b) == Zeros(r, n) + Sum(r, a, b)
  {
    assert AddLaw(r, r.zero, r.zero, r.zero);
  }

  lemma SumAppend<E(!new)>(r: Ring<E>, a: seq<E>, b: seq<E>, v: E)
    requires Laws(r) && |a| == |b|
    ensures Sum(r, a + [r.zero], b + [v]) == Sum(r, a, b) + [v]
  {
    assert AddLaw(r, v, v, v);
  }

  lemma DividedStep<E(!new)>(r: Ring<E>, vs: seq<E>, q: seq<E>, c: seq<E>, v: E, d: seq<E>)
    requires Laws(r) && Divided(r, vs, q, c) && |r.lower(c[0])| == 6 && d == Step(r, c, v)
    ensures Divided(r, vs + [v], q + [c[0]], d)
  {
    var n, p, a := |q|, Product(r, q), c[0];
    ProductAppend(r, q, a, p);
    SumRegroups(r, p + [r.zero], Zeros(r, n) + Multiple(r, a), Zeros(r, n) + ([r.zero] + d));
    SumPadded(r, n, Multiple(r, a), [r.zero] + d);
    StepDivides(r, c, v, d);
    SumAppend(r, p, Zeros(r, n) + c, v);
    assert Zeros(r, n + 1) + d == Zeros(r, n) + ([r.zero] + d);
    assert Zeros(r, n) + (c + [v]) == Zeros(r, n) + c + [v];
  }

  /** All coefficients of `vs`, one after the other. */
  ghost function Fold<E(!new)>(r: Ring<E>, c: seq<E>, vs: seq<E>): (d: seq<E>)
    requires Laws(r) && |c| == 6
    ensures |d| == 6
    decreases |vs|
  {
    if vs == [] then c
    else
      assert LowerLaw(r, c[0]);
      Fold(r, Step(r, c, vs[0]), vs[1..])
  }

  lemma {:induction false} FoldDivides<E(!new)>(r: Ring<E>, us: seq<E>, q: seq<E>, c: seq<E>, vs: seq<E>)
    returns (p: seq<E>)
    requires Laws(r) && Divided(r, us, q, c)
    ensures Divided(r, us + vs, p, Fold(r, c, vs))
    decreases |vs|
  {
    if vs == [] {
      assert us + vs == us;
      p := q;
    } else {
      assert LowerLaw(r, c[0]);
      var d := Step(r, c, vs[0]);
      DividedStep(r, us, q, c, vs[0], d);
      p := FoldDivides(r, us + [vs[0]], q + [c[0]], d, vs[1..]);
      assert us + [vs[0]] + vs[1..] == us + vs;
    }
  }

  lemma DividedStart<E(!new)>(r: Ring<E>, c: seq<E>)
    requires Laws(r) && |c| == 6
    ensures Divided(r, c, [], c)
  {
    forall i | 0 <= i < 6 ensures r.add(r.zero, c[i]) == c[i] { assert AddLaw(r, c[i], c[i], c[i]); }
    assert Zeros(r, 0) + c == c;
  }

  lemma AddInjective<E(!new)>(r: Ring<E>, a: E, x: E, y: E)
    requires Laws(r) && r.add(a, x) == r.add(a, y)
    ensures x == y
  {
    assert AddLaw(r, a, x, x) && AddLaw(r, a, y, y);
  }

  /** The leading coefficients of a product, one factor shorter. */
  lemma ProductLeads<E(!new)>(r: Ring<E>, q: seq<E>, a: E, i: nat)
    requires Laws(r) && i <= |q|
    ensures Product(r, q + [a])[i] == if i < |q| then Product(r, q)[i] else r.add(Product(r, q)[i], a)
  {
    ProductAppend(r, q, a, Product(r, q));
    assert AddLaw(r, Product(r, q)[i], a, a);
  }

  lemma {:induction false} FactorUnique<E(!new)>(r: Ring<E>, p: seq<E>, q: seq<E>)
    requires Laws(r) && |p| == |q| && forall i :: 0 <= i < |p| ==> Product(r, p)[i] == Product(r, q)[i]
    ensures p == q
    decreases |p|
  {
    if p != [] {
      var n := |p| - 1;
      var p', q', a, b := p[..n], q[..n], p[n], q[n];
      assert p == p' + [a] && q == q' + [b];
      forall i | 0 <= i < n ensures Product(r, p')[i] == Product(r, q')[i] {
        ProductLeads(r, p', a, i);
        ProductLeads(r, q', b, i);
      }
      FactorUnique(r, p', q');
      ProductLeads(r, p', a, n);
      ProductLeads(r, q', b, n);
      AddInjective(r, Product(r, p')[n], a, b);
    }
  }

  /** Quotient and remainder are determined. */
  lemma DivisionUnique<E(!new)>(r: Ring<E>, vs: seq<E>, p: seq<E>, c: seq<E>, q: seq<E>, d: seq<E>)
    requires Laws(r) && Divided(r, vs, p, c) && Divided(r, vs, q, d)
    ensures p == q && c == d
  {
    var n := |p|;
    forall i | 0 <= i < n ensures Product(r, p)[i] == Product(r, q)[i] {
      assert vs[i] == r.add(Product(r, p)[i], (Zeros(r, n) + c)[i]) == r.add(Product(r, q)[i], (Zeros(r, n) + d)[i]);
      assert AddLaw(r, Product(r, p)[i], r.zero, r.zero) && AddLaw(r, Product(r, q)[i], r.zero, r.zero);
    }
    FactorUnique(r, p, q);
    forall i | 0 <= i < 6 ensures c[i] == d[i] {
      assert vs[n + i] == r.add(Product(r, p)[n + i], (Zeros(r, n) + c)[n + i]);
      assert vs[n + i] == r.add(Product(r, q)[n + i], (Zeros(r, n) + d)[n + i]);
      AddInjective(r, Product(r, p)[n + i], c[i], d[i]);
    }
  }
}

/** What the checksum computes: the remainder of a polynomial over GF(32).  Field elements are
    polynomials over GF(2) modulo a^5 + a^3 + 1; polynomials over the field list their coefficients
    from the highest power down. */
module Bech32Field {
  import opened Bech32
  import Division
  import LinearCode

  // --------------------------------------------------------------- the field

  /** `{2} * x`. */
  function Double(x: Five): Five { Five(x.b3, x.b2 != x.b4, x.b1, x.b0, x.b4) }

  function Part(b: bool, y: Five): Five { if b then y else ZERO }

  /** The product in GF(32). */
  function Times(x: Five, y: Five): Five {
    var y2 := Double(y);
    var y4 := Double(y2);
    var y8 := Double(y4);
    Xor(Part(x.b0, y), Xor(Part(x.b1, y2), Xor(Part(x.b2, y4), Xor(Part(x.b3, y8), Part(x.b4, Double(y8))))))
  }

  function DoublePoly(p: Poly): Poly {
    Poly(Double(p.c0), Double(p.c1), Double(p.c2), Double(p.c3), Double(p.c4), Double(p.c5))
  }

  function Scale(x: Five, p: Poly): Poly {
    Poly(Times(x, p.c0), Times(x, p.c1), Times(x, p.c2), Times(x, p.c3), Times(x, p.c4), Times(x, p.c5))
  }

  /** The source's constants are `k(x)` and its doubles. */
  lemma Doubles()
    ensures K2 == DoublePoly(K1) && K4 == DoublePoly(K2) && K8 == DoublePoly(K4) && K16 == DoublePoly(K8)
  {}

  /** The example in the source: {5} * {26} = {9}. */
  lemma FiveTimesTwentySix()
    ensures Times(Five(false, false, true, false, true), Five(true, true, false, true, false)) ==
      Five(false, true, false, false, true)
  {}

  lemma SumOfParts(x: Five, k: Five, k2: Five, k4: Five, k8: Five, k16: Five)
    requires k2 == Double(k) && k4 == Double(k2) && k8 == Double(k4) && k16 == Double(k8)
    ensures Times(x, k) ==
      Xor(Part(x.b0, k), Xor(Part(x.b1, k2), Xor(Part(x.b2, k4), Xor(Part(x.b3, k8), Xor(Part(x.b4, k16), ZERO)))))
  {
    XorCancels(Part(x.b4, k16), ZERO);
  }

  /** Mixing in the constants selected by the bits of `c` adds `c * k(x)`. */
  lemma MixScales(c: Five)
    ensures Mix(c) == Scale(c, K1)
  {
    MixIs(c);
    Doubles();
    SumOfParts(c, K1.c0, K2.c0, K4.c0, K8.c0, K16.c0);
    SumOfParts(c, K1.c1, K2.c1, K4.c1, K8.c1, K16.c1);
    SumOfParts(c, K1.c2, K2.c2, K4.c2, K8.c2, K16.c2);
    SumOfParts(c, K1.c3, K2.c3, K4.c3, K8.c3, K16.c3);
    SumOfParts(c, K1.c4, K2.c4, K4.c4, K8.c4, K16.c4);
    SumOfParts(c, K1.c5, K2.c5, K4.c5, K8.c5, K16.c5);
  }

  // --------------------------------------------------------------- the remainder

  /** The lower coefficients of `a * g(x)`, where the generator `g(x)` is `x^6 + k(x)`: those of `a * k(x)`
      (see `MixScales`). */
  function Lower(a: Five): (r: seq<Five>)
    ensures |r| == 6
  {
    Groups(Mix(a))
  }

  const FIELD: Division.Ring<Five> := Division.Ring(Xor, ZERO, Lower)

  lemma XorAssociative(a: Five, b: Five, c: Five)
    ensures Xor(Xor(a, b), c) == Xor(a, Xor(b, c))
  {}

  lemma XorBack(a: Five, b: Five)
    ensures Xor(a, Xor(b, a)) == b
  {}

  lemma XorLaw(a: Five, b: Five, c: Five)
    ensures Division.AddLaw(FIELD, a, b, c)
  {
    XorAssociative(a, b, c);
    XorCancels(a, b);
    XorBack(a, b);
  }

  lemma LowerLaw(a: Five)
    ensures Division.LowerLaw(FIELD, a)
  {}

  lemma FieldLaws()
    ensures Division.Laws(FIELD)
  {
    forall a: Five, b: Five, c: Five ensures Division.AddLaw(FIELD, a, b, c) { XorLaw(a, b, c); }
    forall a: Five ensures Division.LowerLaw(FIELD, a) { LowerLaw(a); }
  }

  lemma GroupsShift(c: Poly, v: Five)
    ensures Groups(c)[1..] + [v] == Groups(Poly(c.c1, c.c2, c.c3, c.c4, c.c5, v))
  {}

  lemma GroupsAdd(p: Poly, q: Poly, i: nat)
    requires i < 6
    ensures Groups(Add(p, q))[i] == Xor(Groups(p)[i], Groups(q)[i])
  {}

  /** A step of the checksum is a step of the division: `c(x) * x + v` modulo `g(x)`. */
  lemma StepIsDivision(c: Poly, v: Five)
    ensures |FIELD.lower(Groups(c)[0])| == 6
    ensures Groups(Step(c, v)) == Division.Step(FIELD, Groups(c), v)
  {
    GroupsShift(c, v);
    assert FIELD.lower(c.c0) == Groups(Mix(c.c0));
    SumIsAdd(Poly(c.c1, c.c2, c.c3, c.c4, c.c5, v), Mix(c.c0));
  }

  lemma SumIsAdd(p: Poly, q: Poly)
    ensures Groups(Add(p, q)) == Division.Sum(FIELD, Groups(p), Groups(q))
  {
    forall i | 0 <= i < 6 ensures Groups(Add(p, q))[i] == FIELD.add(Groups(p)[i], Groups(q)[i]) {
      GroupsAdd(p, q, i);
    }
  }

  lemma GroupsInjective(p: Poly, q: Poly)
    requires Groups(p) == Groups(q)
    ensures p == q
  {
    assert Groups(p)[0] == p.c0 && Groups(p)[1] == p.c1 && Groups(p)[2] == p.c2;
    assert Groups(p)[3] == p.c3 && Groups(p)[4] == p.c4 && Groups(p)[5] == p.c5;
  }

  /** The loop of the checksum is the loop of the division. */
  lemma {:induction false} FoldIs(c: Poly, vs: seq<Five>)
    requires Division.Laws(FIELD)
    ensures Groups(LinearCode.From(CODE, c, vs)) == Division.Fold(FIELD, Groups(c), vs)
    decreases |vs|
  {
    if vs != [] {
      StepIsDivision(c, vs[0]);
      FoldIs(Step(c, vs[0]), vs[1..]);
    }
  }

  lemma PolyModDivides(vs: seq<Five>) returns (q: seq<Five>)
    requires Division.Laws(FIELD)
    ensures Division.Divided(FIELD, Groups(ONE) + vs, q, Groups(PolyMod(vs)))
  {
    FoldIs(ONE, vs);
    Division.DividedStart(FIELD, Groups(ONE));
    q := Division.FoldDivides(FIELD, Groups(ONE), [], Groups(ONE), vs);
  }

  /** The checksum of a list is the remainder of the polynomial `1, vs` on division by the generator:
      there is a quotient, and no other remainder of degree less than six. */
  lemma PolyModIsRemainder(vs: seq<Five>) returns (q: seq<Five>)
    ensures Division.Laws(FIELD) && Division.Divided(FIELD, Groups(ONE) + vs, q, Groups(PolyMod(vs)))
    ensures forall p, r :: Division.Divided(FIELD, Groups(ONE) + vs, p, Groups(r)) ==> r == PolyMod(vs)
  {
    FieldLaws();
    q := PolyModDivides(vs);
    forall p, r | Division.Divided(FIELD, Groups(ONE) + vs, p, Groups(r)) ensures r == PolyMod(vs) {
      Division.DivisionUnique(FIELD, Groups(ONE) + vs, p, Groups(r), q, Groups(PolyMod(vs)));
      GroupsInjective(r, PolyMod(vs));
    }
  }
}
