/** The block tree with skip pointers, and the active chain.  Pointers to block index entries are
    positions in the list of all entries; NONE is the null pointer. */
module Chain {
  import opened Numbers
  import opened SkipHeights

  const NONE := -1

  datatype Block = Block(height: nat, prev: int, skip: int)
  type Tree = seq<Block>

  // --------------------------------------------------------- the block tree

  /** Entries only point back, and a height counts the way to a root. */
  predicate Linked(t: Tree) {
    forall b {:trigger t[b].prev} :: 0 <= b < |t| ==>
      NONE <= t[b].prev < b && t[b].height == if t[b].prev == NONE then 0 else t[t[b].prev].height + 1
  }

  /** The plain walk along `prev` to a height; NONE if there is no such ancestor. */
  function Ancestor(t: Tree, b: int, h: int): (a: int)
    requires Linked(t) && NONE <= b < |t|
    ensures NONE <= a <= b
    ensures b != NONE && 0 <= h <= t[b].height <==> a != NONE
    ensures a != NONE ==> t[a].height == h
    decreases b
  {
    if b == NONE || h > t[b].height then NONE
    else if t[b].height == h then b
    else Ancestor(t, t[b].prev, h)
  }

  /** A skip pointer leads to the ancestor at the skip height. */
  predicate SkipOk(t: Tree, b: int)
    requires Linked(t) && 0 <= b < |t|
  {
    t[b].skip == if t[b].prev == NONE then NONE else Ancestor(t, t[b].prev, GetSkipHeight(t[b].height))
  }

  predicate Skipped(t: Tree)
    requires Linked(t)
  {
    forall b :: 0 <= b < |t| ==> SkipOk(t, b)
  }

  predicate Wf(t: Tree) { Linked(t) && Skipped(t) }

  /** An ancestor of an ancestor. */
  lemma {:induction false} AncestorOfAncestor(t: Tree, b: int, k: int, h: int)
    requires Linked(t) && 0 <= b < |t| && 0 <= h <= k <= t[b].height
    ensures Ancestor(t, Ancestor(t, b, k), h) == Ancestor(t, b, h)
    decreases b
  {
    if k < t[b].height { AncestorOfAncestor(t, t[b].prev, k, h); }
  }

  /** One step back from an ancestor. */
  lemma AncestorStep(t: Tree, b: int, k: int)
    requires Linked(t) && 0 <= b < |t| && 0 < k <= t[b].height
    ensures Ancestor(t, b, k) != NONE && t[Ancestor(t, b, k)].prev == Ancestor(t, b, k - 1)
  {
    AncestorOfAncestor(t, b, k, k - 1);
    var a := Ancestor(t, b, k);
    assert Ancestor(t, a, k - 1) == Ancestor(t, t[a].prev, k - 1) == t[a].prev;
  }

  /** Adding entries changes no ancestor. */
  lemma {:induction false} AncestorGrows(t: Tree, u: Tree, b: int, h: int)
    requires Linked(t) && Linked(t + u) && NONE <= b < |t|
    ensures Ancestor(t + u, b, h) == Ancestor(t, b, h)
    decreases b
  {
    if b != NONE && h < t[b].height { AncestorGrows(t, u, t[b].prev, h); }
  }

  /** `CBlockIndex::GetAncestor`: the walk with skip pointers agrees with the plain walk, in a number
      of steps that is quadratic in the number of bits of the height (see `StepsBound`), and at most
      110 among the first 2^18 blocks. */
  method GetAncestor(t: Tree, b: int, height: int) returns (walk: int, ghost steps: nat)
    requires Wf(t) && 0 <= b < |t|
    ensures walk == Ancestor(t, b, height)
    ensures 0 <= height <= t[b].height ==> steps == Steps(t[b].height, height)
    ensures t[b].height < 0x4_0000 ==> steps <= 110
  {
    steps := 0;
    if height > t[b].height || height < 0 { return NONE, 0; }
    walk := b;
    while t[walk].height > height
      invariant OnTheWay(t, b, walk, height) && steps + Steps(t[walk].height, height) == Steps(t[b].height, height)
      decreases t[walk].height
    {
      walk := WalkBack(t, walk, height);
      steps := steps + 1;
    }
    if t[b].height < 0x4_0000 { StepsFromComment(t[b].height, height); }
  }

  /** The walk from `b` to a height has come to `walk`. */
  ghost predicate OnTheWay(t: Tree, b: int, walk: int, height: nat)
    requires Linked(t) && 0 <= b < |t|
  {
    0 <= walk < |t| && t[walk].height >= height && Ancestor(t, walk, height) == Ancestor(t, b, height)
  }

  method WalkBack(t: Tree, walk: int, height: nat) returns (v: int)
    requires Wf(t) && 0 <= walk < |t| && t[walk].height > height
    ensures OnTheWay(t, walk, v, height) && t[v].height < t[walk].height
    ensures Steps(t[walk].height, height) == 1 + Steps(t[v].height, height)
  {
    WalkStep(t, walk, height);
    var heightSkip := GetSkipHeight(t[walk].height);
    var heightSkipPrev := GetSkipHeight(t[walk].height - 1);
    if t[walk].skip != NONE && Chosen(heightSkip, heightSkipPrev, height) {
      v := t[walk].skip;
    } else {
      v := t[walk].prev;
    }
    assert t[v].height == Next(t[walk].height, height);
  }

  /** One step of the walk: both pointers exist, and whichever is followed stays on the way. */
  lemma WalkStep(t: Tree, walk: int, height: nat)
    requires Wf(t) && 0 <= walk < |t| && t[walk].height > height
    ensures var skip, prev := t[walk].skip, t[walk].prev;
      && 0 <= skip < |t| && 0 <= prev < |t|
      && t[skip].height == GetSkipHeight(t[walk].height) && t[prev].height == t[walk].height - 1
      && Ancestor(t, prev, height) == Ancestor(t, walk, height)
      && (t[skip].height >= height ==> Ancestor(t, skip, height) == Ancestor(t, walk, height))
  {
    SkipHeightBelow(t[walk].height);
    assert SkipOk(t, walk);
    var s := GetSkipHeight(t[walk].height);
    if s >= height { AncestorOfAncestor(t, t[walk].prev, s, height); }
  }

  /** A new entry keeps the tree well-formed. */
  lemma AddKeeps(t: Tree, x: Block)
    requires Wf(t) && NONE <= x.prev < |t|
    requires x.height == if x.prev == NONE then 0 else t[x.prev].height + 1
    requires x.skip == if x.prev == NONE then NONE else Ancestor(t, x.prev, GetSkipHeight(x.height))
    ensures Wf(t + [x])
  {
    var u := t + [x];
    assert forall b :: 0 <= b < |t| ==> u[b] == t[b];
    assert Linked(u);
    forall b | 0 <= b < |u| ensures SkipOk(u, b) {
      assert b < |t| ==> SkipOk(t, b);
      AncestorGrows(t, [x], u[b].prev, GetSkipHeight(u[b].height));
    }
  }

  // -------------------------------------------------------- common ancestors

  predicate IsAncestor(t: Tree, a: int, b: int)
    requires Linked(t) && NONE <= b < |t|
  {
    0 <= a < |t| && Ancestor(t, b, t[a].height) == a
  }

  predicate Common(t: Tree, a: int, b: int, r: int)
    requires Linked(t) && NONE <= a < |t| && NONE <= b < |t|
  {
    IsAncestor(t, r, a) && IsAncestor(t, r, b)
  }

  /** `r` is the highest entry that is an ancestor of both, or NONE if there is none. */
  ghost predicate HighestCommon(t: Tree, a: int, b: int, r: int)
    requires Linked(t) && NONE <= a < |t| && NONE <= b < |t|
  {
    if r == NONE then forall x :: !Common(t, a, b, x)
    else Common(t, a, b, r) && forall x :: Common(t, a, b, x) ==> t[x].height <= t[r].height
  }

  lemma HighestCommonUnique(t: Tree, a: int, b: int, r: int, s: int)
    requires Linked(t) && NONE <= a < |t| && NONE <= b < |t|
    requires HighestCommon(t, a, b, r) && HighestCommon(t, a, b, s)
    ensures r == s
  {
    assert r != NONE ==> Common(t, a, b, r);
    assert s != NONE ==> Common(t, a, b, s);
  }

  /** The plain search: step back from the higher of the two until they meet. */
  function LastCommon(t: Tree, a: int, b: int): (r: int)
    requires Linked(t) && NONE <= a < |t| && NONE <= b < |t|
    ensures NONE <= r < |t|
    decreases a + b
  {
    if a == NONE || b == NONE then NONE
    else if a == b then a
    else if t[a].height >= t[b].height then LastCommon(t, t[a].prev, b)
    else LastCommon(t, a, t[b].prev)
  }

  lemma SameHighest(t: Tree, a: int, b: int, c: int, d: int, r: int)
    requires Linked(t) && NONE <= a < |t| && NONE <= b < |t| && NONE <= c < |t| && NONE <= d < |t|
    requires SameCommon(t, a, b, c, d) && HighestCommon(t, a, b, r)
    ensures HighestCommon(t, c, d, r)
  {
    assert r != NONE ==> Common(t, c, d, r);
  }

  lemma {:induction false} LastCommonIsHighest(t: Tree, a: int, b: int)
    requires Linked(t) && NONE <= a < |t| && NONE <= b < |t|
    ensures HighestCommon(t, a, b, LastCommon(t, a, b))
    decreases a + b
  {
    if a != NONE && b != NONE {
      if a == b {
        SameRefl(t, a, b);
        FoundHighest(t, a, b, a, b);
      } else if t[a].height >= t[b].height {
        BackKeeps(t, a, b);
        LastCommonIsHighest(t, t[a].prev, b);
        SameHighest(t, t[a].prev, b, a, b, LastCommon(t, a, b));
      } else {
        BackKeeps(t, b, a);
        CommonSwaps(t, t[b].prev, a, b, a);
        LastCommonIsHighest(t, a, t[b].prev);
        SameHighest(t, a, t[b].prev, a, b, LastCommon(t, a, b));
      }
    }
  }

  lemma CommonSwaps(t: Tree, a: int, b: int, c: int, d: int)
    requires Linked(t) && NONE <= a < |t| && NONE <= b < |t| && NONE <= c < |t| && NONE <= d < |t|
    requires SameCommon(t, a, b, c, d)
    ensures SameCommon(t, b, a, d, c)
  {
    forall x ensures Common(t, b, a, x) <==> Common(t, d, c, x) { assert Common(t, a, b, x) <==> Common(t, c, d, x); }
  }

  /** Whatever finds the highest common ancestor finds the same one. */
  lemma HighestIsLastCommon(t: Tree, a: int, b: int, r: int)
    requires Linked(t) && NONE <= a < |t| && NONE <= b < |t| && HighestCommon(t, a, b, r)
    ensures r == LastCommon(t, a, b)
  {
    LastCommonIsHighest(t, a, b);
    HighestCommonUnique(t, a, b, r, LastCommon(t, a, b));
  }

  /** The ancestors of the ancestor of `a` at a height are the ancestors of `a` up to that height. */
  lemma CutToHeight(t: Tree, a: int, h: int, x: int)
    requires Linked(t) && 0 <= a < |t| && 0 <= h <= t[a].height
    ensures IsAncestor(t, x, Ancestor(t, a, h)) <==> IsAncestor(t, x, a) && t[x].height <= h
  {
    if 0 <= x < |t| && t[x].height <= h { AncestorOfAncestor(t, a, h, t[x].height); }
  }

  lemma AncestorNotAbove(t: Tree, x: int, b: int)
    requires Linked(t) && 0 <= b < |t| && IsAncestor(t, x, b)
    ensures t[x].height <= t[b].height
  {}

  /** Stepping back from `b` loses the ancestor `b` only. */
  lemma StepBack(t: Tree, b: int, x: int)
    requires Linked(t) && 0 <= b < |t|
    ensures IsAncestor(t, x, b) <==> x == b || IsAncestor(t, x, t[b].prev)
  {}

  ghost predicate SameCommon(t: Tree, a: int, b: int, c: int, d: int)
    requires Linked(t) && NONE <= a < |t| && NONE <= b < |t| && NONE <= c < |t| && NONE <= d < |t|
  {
    forall x :: Common(t, a, b, x) <==> Common(t, c, d, x)
  }

  lemma SameRefl(t: Tree, a: int, b: int)
    requires Linked(t) && NONE <= a < |t| && NONE <= b < |t|
    ensures SameCommon(t, a, b, a, b)
  {}

  /** Cutting the higher side down to the height of the other loses no common ancestor. */
  lemma CutKeeps(t: Tree, a: int, b: int)
    requires Linked(t) && 0 <= a < |t| && 0 <= b < |t| && t[b].height <= t[a].height
    ensures SameCommon(t, Ancestor(t, a, t[b].height), b, a, b) && SameCommon(t, b, Ancestor(t, a, t[b].height), b, a)
  {
    forall x ensures Common(t, Ancestor(t, a, t[b].height), b, x) <==> Common(t, a, b, x) {
      CutToHeight(t, a, t[b].height, x);
    }
    forall x ensures Common(t, b, Ancestor(t, a, t[b].height), x) <==> Common(t, b, a, x) {
      CutToHeight(t, a, t[b].height, x);
    }
  }

  /** Nor does stepping back from an entry that is not common. */
  lemma BackKeeps(t: Tree, a: int, b: int)
    requires Linked(t) && 0 <= a < |t| && NONE <= b < |t| && !IsAncestor(t, a, b)
    ensures SameCommon(t, t[a].prev, b, a, b)
  {
    forall x ensures Common(t, t[a].prev, b, x) <==> Common(t, a, b, x) { StepBack(t, a, x); }
  }

  lemma BothBackKeeps(t: Tree, a: int, b: int)
    requires Linked(t) && 0 <= a < |t| && 0 <= b < |t| && a != b && t[a].height == t[b].height
    ensures SameCommon(t, t[a].prev, t[b].prev, a, b)
  {
    forall x ensures Common(t, t[a].prev, t[b].prev, x) <==> Common(t, a, b, x) {
      StepBack(t, a, x);
      StepBack(t, b, x);
    }
  }

  /** An entry met on the way that is common is the highest. */
  lemma FoundHighest(t: Tree, a: int, b: int, r: int, b': int)
    requires Linked(t) && NONE <= a < |t| && NONE <= b < |t| && 0 <= r < |t| && NONE <= b' < |t|
    requires SameCommon(t, r, b', a, b) && IsAncestor(t, r, b')
    ensures HighestCommon(t, a, b, r)
  {
    assert Common(t, r, b', r);
    forall x | Common(t, a, b, x) ensures t[x].height <= t[r].height {
      assert Common(t, r, b', x);
      AncestorNotAbove(t, x, r);
    }
  }

  /** `LastCommonAncestor`; the assertion at its end holds in every tree, with one root or many. */
  method LastCommonAncestor(t: Tree, a: int, b: int) returns (r: int)
    requires Wf(t) && 0 <= a < |t| && 0 <= b < |t|
    ensures NONE <= r < |t| && HighestCommon(t, a, b, r) && r == LastCommon(t, a, b)
  {
    var pa, pb := a, b;
    if t[pa].height > t[pb].height {
      ghost var n;
      pa, n := GetAncestor(t, pa, t[pb].height);
      CutKeeps(t, a, b);
    } else if t[pb].height > t[pa].height {
      ghost var n;
      pb, n := GetAncestor(t, pb, t[pa].height);
      CutKeeps(t, b, a);
    }
    while pa != pb && pa != NONE && pb != NONE
      invariant NONE <= pa < |t| && NONE <= pb < |t| && (pa == NONE <==> pb == NONE)
      invariant pa != NONE ==> t[pa].height == t[pb].height
      invariant SameCommon(t, pa, pb, a, b)
      decreases pa
    {
      BothBackKeeps(t, pa, pb);
      pa, pb := t[pa].prev, t[pb].prev;
    }
    assert pa == pb;
    r := pa;
    if r != NONE { FoundHighest(t, a, b, r, pb); }
    HighestIsLastCommon(t, a, b, r);
  }

  // ---------------------------------------------------------------- locators

  /** How far below the start the k-th locator entry lies. */
  function Drop(k: nat): nat { if k <= 10 then k else 9 + Pow2(k - 10) }

  /** The height of the k-th entry of a locator started at height `h`. */
  function LocatorHeight(h: nat, k: nat): nat { if Drop(k) < h then h - Drop(k) else 0 }

  /** The step in use after `n` entries have been listed. */
  function Step(n: nat): nat { if n <= 10 then 1 else Pow2(n - 10) }

  lemma StepDoubles(n: nat)
    ensures Step(n + 1) == if n + 1 > 10 then Step(n) * 2 else Step(n)
  {}

  lemma DropStep(n: nat)
    requires n > 0
    ensures Drop(n) == Drop(n - 1) + Step(n - 1)
  {}

  lemma {:induction false} DropRises(j: nat, k: nat)
    requires j < k
    ensures Drop(j) < Drop(k)
    decreases k
  {
    DropStep(k);
    if j < k - 1 { DropRises(j, k - 1); }
  }

  /** The exponent of the least power of two that is not below `x`. */
  function CeilLog2(x: nat): nat
    decreases x
  {
    if x <= 1 then 0 else 1 + CeilLog2((x + 1) / 2)
  }

  lemma {:induction false} CeilLog2Means(x: nat, j: nat)
    ensures j < CeilLog2(x) <==> Pow2(j) < x
    decreases x
  {
    if x > 1 && j > 0 { CeilLog2Means((x + 1) / 2, j - 1); }
  }

  lemma {:induction false} CeilLog2Monotone(x: nat, y: nat)
    requires x <= y
    ensures CeilLog2(x) <= CeilLog2(y)
    decreases y
  {
    if x > 1 { CeilLog2Monotone((x + 1) / 2, (y + 1) / 2); }
  }

  /** The number of entries of a locator started at height `h`. */
  function LocatorSize(h: nat): nat { if h <= 10 then h + 1 else 11 + CeilLog2(h - 9) }

  /** Its last entry is the first to reach height 0. */
  lemma LocatorEnds(h: nat, k: nat)
    ensures k < LocatorSize(h) - 1 <==> Drop(k) < h
  {
    if h > 10 && k > 10 { CeilLog2Means(h - 9, k - 10); }
    if h > 10 { CeilLog2Means(h - 9, 0); }
  }

  function LocatorEntry(t: Tree, b: int, k: nat): int
    requires Linked(t) && 0 <= b < |t|
  {
    Ancestor(t, b, LocatorHeight(t[b].height, k))
  }

  predicate Listed(t: Tree, b: int, have: seq<int>)
    requires Linked(t) && 0 <= b < |t|
  {
    forall k :: 0 <= k < |have| ==> have[k] == LocatorEntry(t, b, k)
  }

  lemma ListOne(t: Tree, b: int, have: seq<int>)
    requires Linked(t) && 0 <= b < |t| && Listed(t, b, have)
    ensures Listed(t, b, have + [LocatorEntry(t, b, |have|)])
  {}

  /** What a locator is: the ancestors at the prescribed heights. */
  predicate IsLocator(t: Tree, b: int, have: seq<int>)
    requires Linked(t) && 0 <= b < |t|
  {
    |have| == LocatorSize(t[b].height) && Listed(t, b, have)
  }

  /** The heights fall strictly and the last is 0. */
  lemma HeightsFall(h: nat, j: nat, k: nat)
    requires j < k < LocatorSize(h)
    ensures LocatorHeight(h, k) < LocatorHeight(h, j) <= h
  {
    LocatorEnds(h, j);
    DropRises(j, k);
  }

  lemma LastHeight(h: nat, k: nat)
    requires k < LocatorSize(h)
    ensures LocatorHeight(h, k) <= h && (LocatorHeight(h, k) == 0 <==> k == LocatorSize(h) - 1)
  {
    LocatorEnds(h, k);
  }

  lemma NextHeight(h: nat, k: nat)
    ensures LocatorHeight(h, k + 1) == if LocatorHeight(h, k) > Step(k) then LocatorHeight(h, k) - Step(k) else 0
  {
    DropStep(k + 1);
  }

  lemma EntryExists(t: Tree, b: int, k: nat)
    requires Linked(t) && 0 <= b < |t| && k < LocatorSize(t[b].height)
    ensures var a := LocatorEntry(t, b, k);
      0 <= a < |t| && t[a].height == LocatorHeight(t[b].height, k) &&
        (t[a].height == 0 <==> k == LocatorSize(t[b].height) - 1)
  {
    LastHeight(t[b].height, k);
  }

  lemma NextEntry(t: Tree, b: int, k: nat)
    requires Linked(t) && 0 <= b < |t| && k + 1 < LocatorSize(t[b].height)
    ensures var a := LocatorEntry(t, b, k);
      0 <= a < |t| && LocatorEntry(t, b, k + 1) ==
        Ancestor(t, a, if t[a].height > Step(k) then t[a].height - Step(k) else 0)
  {
    var h := t[b].height;
    EntryExists(t, b, k);
    NextHeight(h, k);
    AncestorOfAncestor(t, b, LocatorHeight(h, k), LocatorHeight(h, k + 1));
  }

  /** `p` is the next entry to be listed. */
  predicate Locating(t: Tree, b: int, p: int, step: nat, have: seq<int>)
    requires Linked(t) && 0 <= b < |t|
  {
    && 0 <= p < |t| && |have| < LocatorSize(t[b].height) && step == Step(|have|)
    && p == LocatorEntry(t, b, |have|) && Listed(t, b, have)
  }

  lemma StartLocating(t: Tree, b: int)
    requires Linked(t) && 0 <= b < |t|
    ensures Locating(t, b, b, 1, [])
  {}

  lemma LocateOne(t: Tree, b: int, p: int, step: nat, have: seq<int>)
    requires Linked(t) && 0 <= b < |t| && Locating(t, b, p, step, have)
    ensures t[p].height == 0 ==> IsLocator(t, b, have + [p])
    ensures t[p].height > 0 ==>
      Locating(t, b, Ancestor(t, p, if t[p].height > step then t[p].height - step else 0),
        if |have| + 1 > 10 then step * 2 else step, have + [p])
  {
    var k := |have|;
    EntryExists(t, b, k);
    ListOne(t, b, have);
    StepDoubles(k);
    if t[p].height > 0 { NextEntry(t, b, k); }
  }

  lemma SizeBound(h: nat)
    requires h > 0
    ensures LocatorSize(h) <= 11 + CeilLog2(h)
  {
    if h > 10 { CeilLog2Monotone(h - 9, h); }
  }

  /** Heights fall strictly, from the start down to the root, in logarithmically many entries. */
  lemma LocatorShape(t: Tree, b: int, have: seq<int>)
    requires Linked(t) && 0 <= b < |t| && IsLocator(t, b, have)
    ensures have[0] == b && have[|have| - 1] == Ancestor(t, b, 0)
    ensures forall k :: 0 <= k < |have| ==> IsAncestor(t, have[k], b)
    ensures forall j, k :: 0 <= j < k < |have| ==> t[have[k]].height < t[have[j]].height
    ensures t[b].height > 0 ==> |have| <= 11 + CeilLog2(t[b].height)
  {
    var h := t[b].height;
    LastHeight(h, |have| - 1);
    forall k | 0 <= k < |have| ensures IsAncestor(t, have[k], b) && t[have[k]].height == LocatorHeight(h, k) {
      LastHeight(h, k);
    }
    forall j, k | 0 <= j < k < |have| ensures t[have[k]].height < t[have[j]].height { HeightsFall(h, j, k); }
    if h > 0 { SizeBound(h); }
  }

  // -------------------------------------------------------- the active chain

  /** Entry `k` is the ancestor of the last entry at height `k`. */
  predicate IsChain(t: Tree, vChain: seq<int>)
    requires Linked(t)
  {
    vChain != [] ==>
      var tip := vChain[|vChain| - 1];
      0 <= tip < |t| && t[tip].height == |vChain| - 1 &&
        forall k :: 0 <= k < |vChain| ==> vChain[k] == Ancestor(t, tip, k)
  }

  /** Every prefix of a chain is a chain. */
  lemma ChainPrefix(t: Tree, vChain: seq<int>, n: nat)
    requires Linked(t) && IsChain(t, vChain) && n <= |vChain|
    ensures IsChain(t, vChain[..n])
  {
    if n > 0 {
      forall k | 0 <= k < n ensures vChain[k] == Ancestor(t, vChain[n - 1], k) { ChainEntry(t, vChain, n - 1, k); }
    }
  }

  /** From height `h` up the chain leads to `b`; below it still holds what it held before. */
  predicate HalfSet(t: Tree, was: seq<int>, b: int, h: int, v: seq<int>)
    requires Linked(t) && 0 <= b < |t|
  {
    |v| == t[b].height + 1 && |was| <= |v| && h <= |v| &&
    forall k :: 0 <= k < |v| ==> v[k] == if k >= h then Ancestor(t, b, k) else if k < |was| then was[k] else NONE
  }

  function Resize(v: seq<int>, n: nat): seq<int> { if n <= |v| then v[..n] else v + seq(n - |v|, _ => NONE) }

  lemma SetNone(t: Tree, v: seq<int>, b: int)
    requires Linked(t) && IsChain(t, v) && 0 <= b < |t|
    ensures var n := t[b].height + 1; var was := if n <= |v| then v[..n] else v;
      IsChain(t, was) && Setting(t, was, b, b, Resize(v, n))
  {
    var n := t[b].height + 1;
    if n <= |v| { ChainPrefix(t, v, n); }
  }

  /** `p` is the next entry to be written. */
  predicate Setting(t: Tree, was: seq<int>, b: int, p: int, v: seq<int>)
    requires Linked(t) && 0 <= b < |t|
  {
    && NONE <= p < |t| && (p != NONE ==> t[p].height <= t[b].height && Ancestor(t, b, t[p].height) == p)
    && HalfSet(t, was, b, if p == NONE then 0 else t[p].height + 1, v)
  }

  lemma SetOne(t: Tree, was: seq<int>, b: int, p: int, v: seq<int>)
    requires Linked(t) && 0 <= b < |t| && Setting(t, was, b, p, v) && p != NONE
    ensures t[p].prev < p && t[p].height < |v| && Setting(t, was, b, t[p].prev, v[t[p].height := p])
  {
    var h := t[p].height;
    if h > 0 { AncestorStep(t, b, h); }
    assert HalfSet(t, was, b, h, v[h := p]);
  }

  /** Meeting an entry that is already in place, everything below it is in place too. */
  lemma SetEnough(t: Tree, was: seq<int>, b: int, p: int, v: seq<int>)
    requires Linked(t) && IsChain(t, was) && 0 <= b < |t| && Setting(t, was, b, p, v)
    requires p != NONE ==> t[p].height < |v| && v[t[p].height] == p
    ensures IsChain(t, v) && v[|v| - 1] == b
  {
    if p != NONE {
      forall k | 0 <= k <= t[p].height ensures v[k] == Ancestor(t, b, k) { BelowInPlace(t, was, b, p, v, k); }
    }
  }

  lemma BelowInPlace(t: Tree, was: seq<int>, b: int, p: int, v: seq<int>, k: nat)
    requires Linked(t) && IsChain(t, was) && 0 <= b < |t| && Setting(t, was, b, p, v)
    requires p != NONE && t[p].height < |v| && v[t[p].height] == p && k <= t[p].height
    ensures v[k] == Ancestor(t, b, k)
  {
    var h := t[p].height;
    assert h < |was| && was[h] == p && v[k] == was[k];
    ChainEntry(t, was, h, k);
    AncestorOfAncestor(t, b, h, k);
  }

  lemma ChainEntry(t: Tree, vChain: seq<int>, h: nat, k: nat)
    requires Linked(t) && IsChain(t, vChain) && k <= h < |vChain|
    ensures 0 <= vChain[h] < |t| && vChain[k] == Ancestor(t, vChain[h], k)
  {
    AncestorOfAncestor(t, vChain[|vChain| - 1], h, k);
  }

  lemma StartAtHeight(t: Tree, v: seq<int>, b: int)
    requires Linked(t) && IsChain(t, v) && 0 <= b < |t| && t[b].height >= |v|
    ensures var tip := if v != [] then v[|v| - 1] else NONE;
      NONE <= tip < |t| && SameCommon(t, Ancestor(t, b, |v| - 1), tip, b, tip)
  {
    if v != [] { CutKeeps(t, b, v[|v| - 1]); }
  }

  lemma BackFrom(t: Tree, r: int, tip: int, b: int)
    requires Linked(t) && 0 <= r < |t| && NONE <= tip < |t| && 0 <= b < |t|
    requires SameCommon(t, r, tip, b, tip) && !(tip != NONE && IsAncestor(t, r, tip))
    ensures SameCommon(t, t[r].prev, tip, b, tip)
  {
    BackKeeps(t, r, tip);
  }

  lemma ForkIs(t: Tree, r: int, tip: int, b: int)
    requires Linked(t) && NONE <= r < |t| && NONE <= tip < |t| && 0 <= b < |t|
    requires SameCommon(t, r, tip, b, tip) && (r != NONE ==> tip != NONE && IsAncestor(t, r, tip))
    ensures HighestCommon(t, b, tip, r) && r == LastCommon(t, b, tip)
  {
    if r != NONE { FoundHighest(t, b, tip, r, tip); }
    HighestIsLastCommon(t, b, tip, r);
  }

  /** Despite stopping at the first entry already in place, the whole chain ends up at the ancestors of `b`. */
  method LeadTo(t: Tree, v0: seq<int>, b: int) returns (v: seq<int>)
    requires Linked(t) && IsChain(t, v0) && 0 <= b < |t|
    ensures IsChain(t, v) && v != [] && v[|v| - 1] == b
  {
    var n := t[b].height + 1;
    ghost var was := if n <= |v0| then v0[..n] else v0;
    SetNone(t, v0, b);
    v := Resize(v0, n);
    var p := b;
    while p != NONE && v[t[p].height] != p
      invariant Setting(t, was, b, p, v)
      decreases p
    {
      SetOne(t, was, b, p, v);
      v := v[t[p].height := p];
      p := t[p].prev;
    }
    SetEnough(t, was, b, p, v);
  }

  class ActiveChain {
    var t: Tree
    var vChain: seq<int>

    predicate Valid()
      reads this
    {
      Wf(t) && IsChain(t, vChain)
    }

    constructor ()
      ensures Valid() && t == [] && vChain == []
    {
      t, vChain := [], [];
    }

    /** A new block index entry, linked to its parent and given its skip pointer (`BuildSkip`). */
    method AddBlock(prev: int) returns (b: int)
      requires Valid() && NONE <= prev < |t|
      modifies this`t
      ensures Valid() && b == |old(t)| && |t| == b + 1 && t[..b] == old(t) && t[b].prev == prev
    {
      var height := if prev == NONE then 0 else t[prev].height + 1;
      var skip := NONE;
      if prev != NONE {
        ghost var n;
        skip, n := GetAncestor(t, prev, GetSkipHeight(height));
      }
      var x := Block(height, prev, skip);
      AddKeeps(t, x);
      b := |t|;
      ghost var was := t;
      t := t + [x];
      if vChain != [] {
        var tip := vChain[|vChain| - 1];
        forall k | 0 <= k < |vChain| ensures Ancestor(t, tip, k) == Ancestor(was, tip, k) {
          AncestorGrows(was, [x], tip, k);
        }
      }
    }

    function Height(): int
      reads this
    {
      |vChain| - 1
    }

    function Tip(): int
      reads this
    {
      if vChain != [] then vChain[|vChain| - 1] else NONE
    }

    function AtHeight(h: int): int
      reads this
    {
      if 0 <= h < |vChain| then vChain[h] else NONE
    }

    predicate Contains(b: int)
      requires 0 <= b < |t|
      reads this
    {
      AtHeight(t[b].height) == b
    }

    /** The chain contains exactly the ancestors of its tip. */
    lemma ContainsMeans(b: int)
      requires Valid() && 0 <= b < |t|
      ensures Contains(b) <==> Tip() != NONE && IsAncestor(t, b, Tip())
    {}

    method SetTip(b: int)
      requires Valid() && NONE <= b < |t|
      modifies this`vChain
      ensures Valid() && Tip() == b
    {
      if b == NONE {
        vChain := [];
        return;
      }
      vChain := LeadTo(t, vChain, b);
    }

    /** The last block this chain shares with `b`: what `LastCommonAncestor` finds for `b` and the tip. */
    method FindFork(b: int) returns (r: int)
      requires Valid() && NONE <= b < |t|
      ensures NONE <= r < |t| && HighestCommon(t, b, Tip(), r) && r == LastCommon(t, b, Tip())
    {
      if b == NONE { return NONE; }
      r := b;
      ghost var tip := Tip();
      if t[r].height > Height() {
        ghost var n;
        r, n := GetAncestor(t, r, Height());
        StartAtHeight(t, vChain, b);
      } else {
        SameRefl(t, b, tip);
      }
      while r != NONE && !Contains(r)
        invariant NONE <= r < |t| && SameCommon(t, r, tip, b, tip)
        decreases r
      {
        ContainsMeans(r);
        BackFrom(t, r, tip, b);
        r := t[r].prev;
      }
      if r != NONE { ContainsMeans(r); }
      ForkIs(t, r, tip, b);
    }

    /** The chain itself answers for its own blocks, the skip pointers for all others. */
    method StepBackTo(p: int, height: int) returns (a: int)
      requires Valid() && 0 <= p < |t| && 0 <= height <= t[p].height
      ensures a == Ancestor(t, p, height)
    {
      if Contains(p) {
        ChainAncestor(p, height);
        a := AtHeight(height);
      } else {
        ghost var n;
        a, n := GetAncestor(t, p, height);
      }
    }

    /** From `b`, or from the tip; an empty locator for an empty chain. */
    method GetLocator(b: int) returns (vHave: seq<int>)
      requires Valid() && NONE <= b < |t|
      ensures var start := if b == NONE then Tip() else b;
        if start == NONE then vHave == [] else IsLocator(t, start, vHave)
    {
      var step: nat := 1;
      vHave := [];
      var p := if b == NONE then Tip() else b;
      if p == NONE { return; }
      ghost var start := p;
      StartLocating(t, start);
      while true
        invariant Locating(t, start, p, step, vHave)
        decreases LocatorSize(t[start].height) - |vHave|
      {
        LocateOne(t, start, p, step, vHave);
        vHave := vHave + [p];
        if t[p].height == 0 { break; }
        var height := if t[p].height > step then t[p].height - step else 0;
        p := StepBackTo(p, height);
        if |vHave| > 10 { step := step * 2; }
      }
    }

    lemma ChainAncestor(p: int, height: int)
      requires Valid() && 0 <= p < |t| && Contains(p) && 0 <= height <= t[p].height
      ensures AtHeight(height) == Ancestor(t, p, height)
    {
      AncestorOfAncestor(t, Tip(), t[p].height, height);
    }
  }
}
