/** The heights that skip pointers lead to, and how many steps a walk with them takes. */
module SkipHeights {
  import opened Numbers

  /** Bitwise and. */
  function And(x: nat, y: nat): nat
    decreases x
  {
    if x == 0 || y == 0 then 0 else 2 * And(x / 2, y / 2) + (if x % 2 == 1 && y % 2 == 1 then 1 else 0)
  }

  lemma {:induction false} AndSelf(n: nat)
    ensures And(n, n) == n
  {
    if n > 0 { AndSelf(n / 2); }
  }

  /** The lowest '1' bit turned into '0'. */
  function InvertLowestOne(n: nat): (r: nat)
    ensures r <= n && (n > 0 ==> r < n)
  {
    if n == 0 then 0 else if n % 2 == 1 then n - 1 else 2 * InvertLowestOne(n / 2)
  }

  /** Which is what `n & (n - 1)` computes. */
  lemma {:induction false} InvertLowestOneIsAnd(n: nat)
    requires n > 0
    ensures And(n, n - 1) == InvertLowestOne(n)
  {
    if n % 2 == 1 {
      AndSelf(n / 2);
      assert (n - 1) / 2 == n / 2;
    } else {
      assert (n - 1) / 2 == n / 2 - 1;
      InvertLowestOneIsAnd(n / 2);
    }
  }

  function GetSkipHeight(height: int): int {
    if height < 2 then 0
    else if height % 2 == 1 then InvertLowestOne(InvertLowestOne(height - 1)) + 1
    else InvertLowestOne(height)
  }

  /** The jump always goes strictly back. */
  lemma SkipHeightBelow(height: nat)
    requires height > 0
    ensures 0 <= GetSkipHeight(height) < height
  {}

  lemma HalfOf(n: nat, x: nat)
    requires n == 2 * x
    ensures n / 2 == x && n % 2 == 0
  {}

  lemma InvertEven(x: nat)
    ensures InvertLowestOne(2 * x) == 2 * InvertLowestOne(x)
  {
    var n := 2 * x;
    HalfOf(n, x);
    assert n > 0 ==> InvertLowestOne(n) == 2 * InvertLowestOne(n / 2);
  }

  lemma OddOf(n: nat, x: nat)
    requires n == 2 * x + 1
    ensures n % 2 == 1
  {}

  lemma InvertOdd(n: nat, x: nat)
    requires n == 2 * x + 1
    ensures InvertLowestOne(n) == 2 * x && n % 2 == 1
  {
    OddOf(n, x);
  }

  /** The skip heights, by parity. */
  lemma SkipEven(w: nat, x: nat)
    requires w == 2 * x && x > 0
    ensures GetSkipHeight(w) == 2 * InvertLowestOne(x)
  {
    InvertEven(x);
  }

  lemma SkipOdd(w: nat, x: nat)
    requires w == 2 * x + 1 && x > 0
    ensures GetSkipHeight(w) == 2 * InvertLowestOne(InvertLowestOne(x)) + 1
  {
    OddOf(w, x);
    InvertEven(x);
    var m := InvertLowestOne(w - 1);
    assert GetSkipHeight(w) == InvertLowestOne(m) + 1;
    InvertEven(InvertLowestOne(x));
  }

  // ------------------------------------------------------- the walk in heights

  /** Whether `GetAncestor` follows the skip pointer to `s`, when the one below leads to `before`. */
  predicate Chosen(s: int, before: int, target: int) {
    s == target || (s > target && !(before < s - 2 && before >= target))
  }

  function Next(w: nat, target: nat): (v: nat)
    requires w > target
    ensures v < w
  {
    SkipHeightBelow(w);
    if Chosen(GetSkipHeight(w), GetSkipHeight(w - 1), target) then GetSkipHeight(w) else w - 1
  }

  /** How many steps the walk takes. */
  function Steps(w: nat, target: nat): nat { if w <= target then 0 else 1 + Steps(Next(w, target), target) }

  /** The position of the highest bit in which the two heights differ. */
  function TopBit(w: nat, target: nat): nat {
    if w / 2 <= target / 2 then 0 else 1 + TopBit(w / 2, target / 2)
  }

  /** How many bits of `w` are set below that one. */
  function LowBits(w: nat, target: nat): nat {
    if w / 2 <= target / 2 then 0 else w % 2 + LowBits(w / 2, target / 2)
  }

  // What the proofs use of these functions is stated for any that obey the same laws.
  datatype Bits = Bits(clear: nat -> nat, skip: nat -> nat, top: (nat, nat) -> nat, low: (nat, nat) -> nat)

  predicate ClearLaw(f: Bits, x: nat) {
    && f.clear(2 * x + 1) == 2 * x && f.clear(2 * x) == 2 * f.clear(x)
    && f.clear(x) <= x && (x > 0 ==> f.clear(x) < x)
  }

  /** Skip heights, by parity. */
  predicate SkipLaw(f: Bits, x: nat) {
    if x == 0 then f.skip(0) == 0 && f.skip(1) == 0
    else f.skip(2 * x) == 2 * f.clear(x) && f.skip(2 * x + 1) == 2 * f.clear(f.clear(x)) + 1
  }

  /** Two numbers given by their halves and last bits. */
  predicate BitLaw(f: Bits, x: nat, b: nat, y: nat, c: nat) {
    b < 2 && c < 2 ==>
      && f.top(2 * x + b, 2 * y + c) == (if x <= y then 0 else 1 + f.top(x, y))
      && f.low(2 * x + b, 2 * y + c) == (if x <= y then 0 else b + f.low(x, y))
  }

  ghost predicate Laws(f: Bits) {
    && (forall x: nat :: ClearLaw(f, x)) && (forall x: nat :: SkipLaw(f, x))
    && (forall x: nat, b: nat, y: nat, c: nat :: BitLaw(f, x, b, y, c))
  }

  function Skip(w: nat): nat { if w == 0 then 0 else SkipHeightBelow(w); GetSkipHeight(w) }

  function TheBits(): Bits { Bits(InvertLowestOne, Skip, TopBit, LowBits) }

  lemma TheLaws()
    ensures Laws(TheBits())
  {
    var f := TheBits();
    forall x: nat ensures ClearLaw(f, x) { TheClear(x); }
    forall x: nat ensures SkipLaw(f, x) { TheSkip(x); }
    forall x: nat, b: nat, y: nat, c: nat ensures BitLaw(f, x, b, y, c) { TheBit(x, b, y, c); }
  }

  lemma TheClear(x: nat)
    ensures ClearLaw(TheBits(), x)
  {
    InvertEven(x);
    InvertOdd(2 * x + 1, x);
  }

  lemma TheSkip(x: nat)
    ensures SkipLaw(TheBits(), x)
  {
    if x > 0 { SkipIs(x); }
  }

  lemma TheBit(x: nat, b: nat, y: nat, c: nat)
    ensures BitLaw(TheBits(), x, b, y, c)
  {
    if b < 2 && c < 2 { BitsOf(x, b, y, c); }
  }

  lemma SkipIs(x: nat)
    requires x > 0
    ensures Skip(2 * x) == 2 * InvertLowestOne(x) && Skip(2 * x + 1) == 2 * InvertLowestOne(InvertLowestOne(x)) + 1
  {
    SkipEven(2 * x, x);
    SkipOdd(2 * x + 1, x);
  }

  lemma BitsOf(x: nat, b: nat, y: nat, c: nat)
    requires b < 2 && c < 2
    ensures TopBit(2 * x + b, 2 * y + c) == if x <= y then 0 else 1 + TopBit(x, y)
    ensures LowBits(2 * x + b, 2 * y + c) == if x <= y then 0 else b + LowBits(x, y)
  {
    assert (2 * x + b) / 2 == x && (2 * y + c) / 2 == y;
  }

  lemma Halves(n: nat) returns (x: nat, b: nat)
    ensures n == 2 * x + b && b < 2 && (n > 0 ==> x < n)
  {
    x, b := n / 2, n % 2;
  }

  lemma {:induction false} LowBitsBound(f: Bits, w: nat, target: nat)
    requires Laws(f)
    ensures f.low(w, target) <= f.top(w, target)
    decreases w
  {
    var x, b := Halves(w);
    var y, c := Halves(target);
    assert BitLaw(f, x, b, y, c);
    if x > y { LowBitsBound(f, x, y); }
  }

  /** Taking away the lowest bit, while still above the target. */
  lemma {:induction false} ClearBits(f: Bits, w: nat, target: nat)
    requires Laws(f) && f.clear(w) > target
    ensures f.top(f.clear(w), target) == f.top(w, target) && f.low(f.clear(w), target) == f.low(w, target) - 1
    decreases w
  {
    assert ClearLaw(f, w);
    var x, b := Halves(w);
    var y, c := Halves(target);
    assert ClearLaw(f, x) && BitLaw(f, x, b, y, c);
    if b == 1 {
      assert BitLaw(f, x, 0, y, c);
    } else {
      ClearBits(f, x, y);
      assert BitLaw(f, f.clear(x), 0, y, c);
    }
  }

  /** As long as there is a bit below the one that differs, clearing one stays above the target. */
  lemma {:induction false} ClearAbove(f: Bits, w: nat, target: nat)
    requires Laws(f) && f.low(w, target) > 0
    ensures f.clear(w) > target
    decreases w
  {
    var x, b := Halves(w);
    var y, c := Halves(target);
    assert ClearLaw(f, x) && BitLaw(f, x, b, y, c);
    if b == 0 && x > y && w > 0 { ClearAbove(f, x, y); }
  }

  /** One step back from a height whose lowest bit is the one that differs. */
  lemma {:induction false} BackBits(f: Bits, w: nat, target: nat)
    requires Laws(f) && w - 1 > target && f.clear(w) <= target
    ensures f.top(w - 1, target) < f.top(w, target)
    decreases w
  {
    var x, b := Halves(w);
    var y, c := Halves(target);
    assert ClearLaw(f, x) && BitLaw(f, x, b, y, c);
    assert BitLaw(f, x - 1, 1, y, c);
    if x - 1 > y { BackBits(f, x, y); }
  }

  /** Clearing the two lowest bits. */
  lemma ClearTwice(f: Bits, x: nat, y: nat)
    requires Laws(f) && f.clear(f.clear(x)) > y
    ensures var z := f.clear(f.clear(x)); x > y && f.top(z, y) == f.top(x, y) && f.low(z, y) == f.low(x, y) - 2
  {
    assert ClearLaw(f, x) && ClearLaw(f, f.clear(x));
    ClearBits(f, f.clear(x), y);
    ClearBits(f, x, y);
  }

  lemma FewBits(f: Bits, x: nat, y: nat)
    requires Laws(f) && x > y
    ensures f.clear(x) <= y ==> f.low(x, y) == 0
    ensures f.clear(f.clear(x)) <= y ==> f.low(x, y) <= 1
  {
    if f.low(x, y) > 0 {
      ClearAbove(f, x, y);
      ClearBits(f, x, y);
      if f.low(x, y) > 1 { ClearAbove(f, f.clear(x), y); }
    }
  }

  // ------------------------------------------------------------- the measure

  /** What a phase and all later ones may cost, when the heights first differ in bit `d`. */
  function Phases(d: nat): (n: nat)
    ensures n >= 5
  {
    if d <= 3 then 5 else Phases(d - 1) + (d - 1) / 2 + 2
  }

  lemma {:induction false} PhasesGrow(c: nat, d: nat)
    requires 3 <= c < d
    ensures Phases(c) + c / 2 + 2 <= Phases(d)
    decreases d
  {
    if c < d - 1 { PhasesGrow(c, d - 1); }
  }

  /** Within a phase: `low` bits are still set below the one that differs, not counting the last
      three, which are `r`.  From a multiple of eight they go one by one, else in pairs. */
  function Within(low: nat, r: nat): nat {
    if r == 0 then low
    else if r == 7 then (low + 1) / 2 + 2
    else if r <= 2 then (low + 1) / 2 + r
    else low / 2 + r + 1
  }

  /** The steps inside a block of eight heights. */
  function Inside(r: nat, c: nat): (n: nat)
    requires r < 8 && c < 8
    ensures n <= 5 && (r == 7 ==> n <= 4)
  {
    [[0, 0, 0, 0, 0, 0, 0, 0], [1, 0, 0, 0, 0, 0, 0, 0], [1, 1, 0, 0, 0, 0, 0, 0], [2, 2, 1, 0, 0, 0, 0, 0],
     [1, 3, 2, 1, 0, 0, 0, 0], [2, 4, 3, 2, 1, 0, 0, 0], [3, 5, 3, 2, 1, 1, 0, 0], [2, 1, 4, 3, 2, 2, 1, 0]][r][c]
  }

  /** What is left to do from height `8 * u + r` to height `8 * v + c`, at most. */
  function Left(f: Bits, u: nat, r: nat, v: nat, c: nat): nat
    requires r < 8 && c < 8
  {
    if u < v || (u == v && r <= c) then 0
    else if u == v then Inside(r, c)
    else Phases(f.top(u, v) + 3) + Within(f.low(u, v), r)
  }

  lemma Eighths(x: nat) returns (u: nat, r: nat)
    ensures x == 8 * u + r && r < 8
  {
    u, r := x / 8, x % 8;
  }

  /** Skip heights, by the last three bits. */
  lemma SkipEight(f: Bits, u: nat)
    requires Laws(f)
    ensures f.skip(8 * u) == 8 * f.clear(u) && f.clear(u) <= u
    ensures f.skip(8 * u + 1) == if u == 0 then 0 else 8 * f.clear(f.clear(u)) + 1
    ensures f.clear(f.clear(u)) <= f.clear(u) && (u > 0 ==> f.clear(u) < u)
    ensures f.skip(8 * u + 2) == 8 * u && f.skip(8 * u + 3) == 8 * f.clear(u) + 1
    ensures f.skip(8 * u + 4) == 8 * u && f.skip(8 * u + 5) == 8 * f.clear(u) + 1
    ensures f.skip(8 * u + 6) == 8 * u + 4 && f.skip(8 * u + 7) == 8 * u + 1
  {
    assert SkipLaw(f, 4 * u) && SkipLaw(f, 4 * u + 1) && SkipLaw(f, 4 * u + 2) && SkipLaw(f, 4 * u + 3);
    assert ClearLaw(f, u) && ClearLaw(f, f.clear(u)) && ClearLaw(f, 2 * u) && ClearLaw(f, 2 * u + 1);
    assert ClearLaw(f, 0) && ClearLaw(f, 2 * f.clear(u));
  }

  lemma SkipMultiple(f: Bits, u: nat)
    requires Laws(f) && u > 0
    ensures f.skip(8 * u) == 8 * f.clear(u) && f.clear(u) < u && f.skip(8 * u - 1) == 8 * u - 7
  {
    SkipEight(f, u);
    SkipEight(f, u - 1);
  }

  /** Where the walk goes from `8 * u + r`. */
  predicate Goes(f: Bits, u: nat, r: nat, v: nat, c: nat, u': nat, r': nat) {
    var w, target := 8 * u + r, 8 * v + c;
    w > 0 && 8 * u' + r' == if Chosen(f.skip(w), f.skip(w - 1), target) then f.skip(w) else w - 1
  }

  lemma FromZero(f: Bits, u: nat, v: nat, c: nat, u': nat, r': nat)
    requires Laws(f) && u > v && c < 8 && r' < 8 && Goes(f, u, 0, v, c, u', r')
    ensures Left(f, u', r', v, c) < Left(f, u, 0, v, c)
  {
    SkipMultiple(f, u);
    if f.clear(u) > v {
      ClearBits(f, u, v);
    } else if u - 1 > v {
      BackBits(f, u, v);
      LowBitsBound(f, u - 1, v);
      PhasesGrow(f.top(u - 1, v) + 3, f.top(u, v) + 3);
    }
  }

  lemma FromOne(f: Bits, u: nat, v: nat, c: nat, u': nat, r': nat)
    requires Laws(f) && u > v && c < 8 && r' < 8 && Goes(f, u, 1, v, c, u', r')
    ensures Left(f, u', r', v, c) < Left(f, u, 1, v, c)
  {
    SkipEight(f, u);
    FewBits(f, u, v);
    if f.clear(f.clear(u)) > v { ClearTwice(f, u, v); }
  }

  lemma FromTwo(f: Bits, u: nat, v: nat, c: nat, u': nat, r': nat)
    requires Laws(f) && u > v && c < 8 && r' < 8 && Goes(f, u, 2, v, c, u', r')
    ensures Left(f, u', r', v, c) < Left(f, u, 2, v, c)
  {
    SkipEight(f, u);
    FewBits(f, u, v);
  }

  lemma FromOdd(f: Bits, u: nat, r: nat, v: nat, c: nat, u': nat, r': nat)
    requires Laws(f) && u > v && c < 8 && r' < 8 && (r == 3 || r == 5) && Goes(f, u, r, v, c, u', r')
    ensures Left(f, u', r', v, c) < Left(f, u, r, v, c)
  {
    SkipEight(f, u);
    if f.clear(u) > v { ClearBits(f, u, v); }
  }

  lemma FromEven(f: Bits, u: nat, r: nat, v: nat, c: nat, u': nat, r': nat)
    requires Laws(f) && u > v && c < 8 && r' < 8 && (r == 4 || r == 6) && Goes(f, u, r, v, c, u', r')
    ensures Left(f, u', r', v, c) < Left(f, u, r, v, c)
  {
    SkipEight(f, u);
    FewBits(f, u, v);
  }

  lemma FromSeven(f: Bits, u: nat, v: nat, c: nat, u': nat, r': nat)
    requires Laws(f) && u > v && c < 8 && r' < 8 && Goes(f, u, 7, v, c, u', r')
    ensures Left(f, u', r', v, c) < Left(f, u, 7, v, c)
  {
    SkipEight(f, u);
  }

  /** A step inside the target's block of eight. */
  lemma StepInside(f: Bits, u: nat, r: nat, c: nat, u': nat, r': nat)
    requires Laws(f) && c < r < 8 && r' < 8 && Goes(f, u, r, u, c, u', r')
    ensures Left(f, u', r', u, c) < Left(f, u, r, u, c)
  {
    SkipEight(f, u);
    if u > 0 { assert f.clear(u) < u && f.clear(f.clear(u)) < u; }
  }

  /** Every step of the walk uses something up. */
  lemma StepCosts(f: Bits, u: nat, r: nat, v: nat, c: nat, u': nat, r': nat)
    requires Laws(f) && r < 8 && c < 8 && r' < 8 && 8 * u + r > 8 * v + c && Goes(f, u, r, v, c, u', r')
    ensures Left(f, u', r', v, c) < Left(f, u, r, v, c)
  {
    if u == v { StepInside(f, u, r, c, u', r'); }
    else if r == 0 { FromZero(f, u, v, c, u', r'); }
    else if r == 1 { FromOne(f, u, v, c, u', r'); }
    else if r == 2 { FromTwo(f, u, v, c, u', r'); }
    else if r == 7 { FromSeven(f, u, v, c, u', r'); }
    else if r == 4 || r == 6 { FromEven(f, u, r, v, c, u', r'); }
    else { FromOdd(f, u, r, v, c, u', r'); }
  }

  // ---------------------------------------------------------- counting the steps

  /** `steps(w)` counts the steps of the walk from `w` to the target. */
  ghost predicate Counts(f: Bits, steps: nat -> nat, target: nat) {
    && (forall w: nat :: w <= target ==> steps(w) == 0)
    && forall w: nat, next: nat :: OneStep(f, steps, target, w, next)
  }

  predicate OneStep(f: Bits, steps: nat -> nat, target: nat, w: nat, next: nat) {
    w > target && next == (if Chosen(f.skip(w), f.skip(w - 1), target) then f.skip(w) else w - 1) ==>
      next < w && steps(w) == 1 + steps(next)
  }

  lemma StepsCounts(f: Bits, steps: nat -> nat, target: nat)
    requires (forall h: nat :: f.skip(h) == Skip(h)) && forall w: nat :: steps(w) == Steps(w, target)
    ensures Counts(f, steps, target)
  {
    forall w: nat, next: nat ensures OneStep(f, steps, target, w, next) {
      if w > target {
        assert f.skip(w) == Skip(w) && f.skip(w - 1) == Skip(w - 1);
        assert Steps(w, target) == 1 + Steps(Next(w, target), target);
      }
    }
  }

  lemma {:induction false} StepsLeft(
      f: Bits, steps: nat -> nat, w: nat, target: nat, u: nat, r: nat, v: nat, c: nat)
    requires Laws(f) && Counts(f, steps, target)
    requires w == 8 * u + r && target == 8 * v + c && r < 8 && c < 8
    ensures steps(w) <= Left(f, u, r, v, c)
    decreases w
  {
    if w > target {
      var next := if Chosen(f.skip(w), f.skip(w - 1), target) then f.skip(w) else w - 1;
      assert OneStep(f, steps, target, w, next);
      var u', r' := Eighths(next);
      StepCosts(f, u, r, v, c, u', r');
      StepsLeft(f, steps, next, target, u', r', v, c);
    }
  }

  /** The most that a walk between heights that first differ in bit `d` can take. */
  function MaxSteps(d: nat): nat {
    if d < 3 then 5 else Phases(d) + if d - 3 > (d - 3) / 2 + 7 then d - 3 else (d - 3) / 2 + 7
  }

  lemma TopOfEight(f: Bits, u: nat, r: nat, v: nat, c: nat)
    requires Laws(f) && r < 8 && c < 8 && u > v
    ensures f.top(8 * u + r, 8 * v + c) == f.top(u, v) + 3
  {
    assert BitLaw(f, u, r / 4, v, c / 4) && BitLaw(f, 2 * u + r / 4, r / 2 % 2, 2 * v + c / 4, c / 2 % 2);
    assert BitLaw(f, 4 * u + r / 2, r % 2, 4 * v + c / 2, c % 2);
  }

  lemma LeftBound(f: Bits, w: nat, target: nat, u: nat, r: nat, v: nat, c: nat)
    requires Laws(f) && w == 8 * u + r && target == 8 * v + c && r < 8 && c < 8
    ensures Left(f, u, r, v, c) <= MaxSteps(f.top(w, target))
  {
    if u > v {
      TopOfEight(f, u, r, v, c);
      LowBitsBound(f, u, v);
    }
  }

  lemma StepsAtMost(f: Bits, steps: nat -> nat, w: nat, target: nat, d: nat)
    requires Laws(f) && Counts(f, steps, target) && d == f.top(w, target)
    ensures steps(w) <= MaxSteps(d)
  {
    var u, r := Eighths(w);
    var v, c := Eighths(target);
    StepsLeft(f, steps, w, target, u, r, v, c);
    LeftBound(f, w, target, u, r, v, c);
  }

  /** The walk takes a number of steps quadratic in the number of bits in which the heights differ. */
  lemma StepsBound(w: nat, target: nat, d: nat)
    requires d == TopBit(w, target)
    ensures Steps(w, target) <= MaxSteps(d)
  {
    TheLaws();
    var steps := (h: nat) => Steps(h, target);
    StepsCounts(TheBits(), steps, target);
    StepsAtMost(TheBits(), steps, w, target, d);
    assert steps(w) == Steps(w, target);
  }

  lemma {:induction false} PhasesIs(d: nat)
    requires d >= 3
    ensures 4 * Phases(d) == (d - 1) * (d - 1) + 8 * d - 8 - (if d % 2 == 0 then 1 else 0)
  {
    if d > 3 {
      PhasesIs(d - 1);
      PhasesStep(d, Phases(d - 1), Phases(d), (d - 2) * (d - 2), (d - 1) * (d - 1));
    }
  }

  lemma PhasesStep(d: nat, p: nat, q: nat, before: int, square: int)
    requires d > 3 && q == p + (d - 1) / 2 + 2 && square == before + 2 * d - 3
    requires 4 * p == before + 8 * (d - 1) - 8 - (if (d - 1) % 2 == 0 then 1 else 0)
    ensures 4 * q == square + 8 * d - 8 - (if d % 2 == 0 then 1 else 0)
  {}

  lemma MaxStepsBound(d: nat)
    ensures 4 * MaxSteps(d) <= d * d + 10 * d + 20
  {
    if d >= 3 {
      PhasesIs(d);
      assert (d - 1) * (d - 1) == d * d - 2 * d + 1;
    }
  }

  lemma {:induction false} MaxStepsGrow(c: nat, d: nat)
    requires c <= d
    ensures MaxSteps(c) <= MaxSteps(d)
  {
    if 3 <= c < d { PhasesGrow(c, d); }
  }

  lemma {:induction false} TopBitBound(w: nat, target: nat, n: nat)
    requires w < Pow2(n) && n > 0
    ensures TopBit(w, target) < n
    decreases n
  {
    if n > 1 && w / 2 > target / 2 { TopBitBound(w / 2, target / 2, n - 1); }
  }

  /** From any height below a power of two, whatever the target. */
  lemma StepsBelow(w: nat, target: nat, n: nat)
    requires w < Pow2(n) && n > 0
    ensures Steps(w, target) <= MaxSteps(n - 1)
  {
    TopBitBound(w, target, n);
    StepsBound(w, target, TopBit(w, target));
    MaxStepsGrow(TopBit(w, target), n - 1);
  }

  /** The source's figure: at most 110 steps from any of the first 2^18 heights. */
  lemma StepsFromComment(w: nat, target: nat)
    requires w < 0x4_0000
    ensures Steps(w, target) <= 110
  {
    Pow2Values();
    assert Pow2(17) == 0x2_0000;
    StepsBelow(w, target, 18);
    PhasesIs(17);
  }

  // ------------------------------------------------------- the longest walk

  /** `m` ones followed by `z` zeros. */
  function Block(m: nat, z: nat): (n: nat)
    ensures n > 0 <==> m > 0
    decreases m + z
  {
    if m == 0 then 0 else if z == 0 then 2 * Block(m - 1, 0) + 1 else 2 * Block(m, z - 1)
  }

  lemma {:induction false} ClearBlock(f: Bits, m: nat, z: nat)
    requires Laws(f) && m > 0
    ensures f.clear(Block(m, z)) == Block(m - 1, z + 1)
    decreases z
  {
    if z == 0 {
      assert ClearLaw(f, Block(m - 1, 0));
    } else {
      ClearBlock(f, m, z - 1);
      assert ClearLaw(f, Block(m, z - 1));
    }
  }

  lemma {:induction false} BeforePower(z: nat)
    ensures Block(1, z) - 1 == Block(z, 0)
  {
    if z > 0 { BeforePower(z - 1); }
  }

  /** From a multiple of eight the ones go singly, */
  lemma {:induction false} Singly(f: Bits, steps: nat -> nat, m: nat, z: nat, u: nat)
    requires Laws(f) && Counts(f, steps, 2) && m > 0 && u == Block(m, z)
    ensures steps(8 * u) == m + steps(8 * Block(m + z - 1, 0) + 7)
    decreases m
  {
    SkipMultiple(f, u);
    ClearBlock(f, m, z);
    if m == 1 {
      BeforePower(z);
      assert OneStep(f, steps, 2, 8 * u, 8 * u - 1);
    } else {
      var next := Block(m - 1, z + 1);
      assert OneStep(f, steps, 2, 8 * u, 8 * next);
      Singly(f, steps, m - 1, z + 1, next);
    }
  }

  lemma LastPair(f: Bits, steps: nat -> nat, m: nat, z: nat, u: nat)
    requires Laws(f) && Counts(f, steps, 2) && 0 < m <= 2 && u == Block(m, z)
    ensures steps(8 * u + 1) == m / 2 + 2 + steps(8 * Block(m + z - 1, 0) + 7)
  {
    SkipEight(f, u);
    ClearBlock(f, m, z);
    if m == 2 { ClearBlock(f, 1, z + 1); } else { assert ClearLaw(f, 0); }
    assert OneStep(f, steps, 2, 8 * u + 1, 8 * u);
    Singly(f, steps, m, z, u);
  }

  /** and from the height above it in pairs. */
  lemma {:induction false} InPairs(f: Bits, steps: nat -> nat, m: nat, z: nat, u: nat)
    requires Laws(f) && Counts(f, steps, 2) && m > 0 && u == Block(m, z)
    ensures steps(8 * u + 1) == m / 2 + 2 + steps(8 * Block(m + z - 1, 0) + 7)
    decreases m
  {
    if m <= 2 {
      LastPair(f, steps, m, z, u);
    } else {
      var next := Block(m - 2, z + 2);
      SkipEight(f, u);
      ClearBlock(f, m, z);
      ClearBlock(f, m - 1, z + 1);
      assert OneStep(f, steps, 2, 8 * u + 1, 8 * next + 1);
      InPairs(f, steps, m - 2, z + 2, next);
    }
  }

  function Longest(k: nat): nat { if k == 0 then 4 else Longest(k - 1) + k / 2 + 3 }

  lemma FromSevenToTwo(f: Bits, steps: nat -> nat)
    requires Laws(f) && Counts(f, steps, 2)
    ensures steps(7) == 4
  {
    SkipEight(f, 0);
    assert ClearLaw(f, 0);
    assert OneStep(f, steps, 2, 7, 6) && OneStep(f, steps, 2, 6, 4);
    assert OneStep(f, steps, 2, 4, 3) && OneStep(f, steps, 2, 3, 2);
  }

  lemma {:induction false} LongestIs(f: Bits, steps: nat -> nat, k: nat, u: nat)
    requires Laws(f) && Counts(f, steps, 2) && u == Block(k, 0)
    ensures steps(8 * u + 7) == Longest(k)
    decreases k
  {
    if k == 0 {
      FromSevenToTwo(f, steps);
    } else {
      SkipEight(f, u);
      assert OneStep(f, steps, 2, 8 * u + 7, 8 * u + 1);
      InPairs(f, steps, k, 0, u);
      LongestIs(f, steps, k - 1, Block(k - 1, 0));
    }
  }

  lemma FifteenOnes()
    ensures Block(15, 0) == 0x7fff && Longest(14) == 95
  {
    assert Block(5, 0) == 0x1f;
    assert Block(10, 0) == 0x3ff;
    assert Longest(7) == 37;
  }

  lemma StepsFrom(f: Bits, steps: nat -> nat)
    requires Laws(f) && Counts(f, steps, 2)
    ensures steps(0x3_fff8) == 110
  {
    FifteenOnes();
    Singly(f, steps, 15, 0, 0x7fff);
    LongestIs(f, steps, 14, Block(14, 0));
  }

  /** The source's figure is exact: it is attained from height 2^18 - 8 to height 2. */
  lemma StepsAttained()
    ensures Steps(0x3_fff8, 2) == 110
  {
    TheLaws();
    var steps := (w: nat) => Steps(w, 2);
    StepsCounts(TheBits(), steps, 2);
    StepsFrom(TheBits(), steps);
    assert steps(0x3_fff8) == 110;
  }
}
