/** Partial Merkle trees (BIP 37): a depth-first encoding of the part of a block's Merkle tree that
    proves some transactions are in the block.  `h` is the pair hash; nothing is assumed about it,
    so what depends on collision resistance is stated as "or two different pairs, hashed by this
    very proof and this very tree, have the same hash". */
module Merkle {
  type Hash = nat
  const NULL_HASH: Hash := 0
  const MAX_TRANSACTIONS := 4000000 / 240
  type Pair = (Hash, Hash) -> Hash
  type Node = (Hash, Hash)

  predicate Collide(h: Pair, a: Node, b: Node) { a != b && h(a.0, a.1) == h(b.0, b.1) }

  /** Two different pairs, one from each set, with the same hash. */
  ghost predicate Clash(h: Pair, some: set<Node>, others: set<Node>) {
    exists a, b {:trigger Collide(h, a, b)} :: a in some && b in others && Collide(h, a, b)
  }

  // -------------------------------------------------------------- tree shape

  function Shl(x: nat, k: nat): nat decreases k { if k == 0 then x else Shl(x + x, k - 1) }
  function Shr(x: nat, k: nat): nat { if k == 0 then x else Shr(x / 2, k - 1) }

  /** `CalcTreeWidth`: the number of nodes at a height. */
  function CalcTreeWidth(n: nat, height: nat): nat
  {
    ShlPositive(1, height);
    Shr(n + Shl(1, height) - 1, height)
  }

  lemma {:induction false} ShlPositive(x: nat, k: nat)
    ensures Shl(x, k) >= x
    decreases k
  {
    if k > 0 { ShlPositive(x + x, k - 1); }
  }

  /** Half, rounded up. */
  function HalfUp(w: nat): (r: nat)
    ensures w <= r + r <= w + 1
  {
    if w < 2 then w else 1 + HalfUp(w - 2)
  }

  /** The same number, level by level. */
  function Width(n: nat, height: nat): nat decreases height {
    if height == 0 then n else HalfUp(Width(n, height - 1))
  }

  lemma {:induction false} ShlDouble(x: nat, k: nat)
    ensures Shl(x + x, k) == 2 * Shl(x, k)
    decreases k
  {
    if k > 0 { ShlDouble(x + x, k - 1); }
  }

  lemma {:induction false} WidthShift(n: nat, height: nat)
    ensures Width(HalfUp(n), height) == Width(n, height + 1)
    decreases height
  {
    if height > 0 { WidthShift(n, height - 1); }
  }

  lemma {:induction false} WidthIsCalcTreeWidth(n: nat, height: nat)
    ensures CalcTreeWidth(n, height) == Width(n, height)
    decreases height
  {
    if height > 0 {
      ShlPositive(1, height);
      ShlPositive(1, height - 1);
      ShlDouble(1, height - 1);
      var p := Shl(1, height - 1);
      assert (n + p + p - 1) / 2 == HalfUp(n) + p - 1;
      WidthIsCalcTreeWidth(HalfUp(n), height - 1);
      WidthShift(n, height - 1);
    }
  }

  /** The height of the root: the first at which the tree is one node wide. */
  function Height(n: nat): nat
    decreases n
  {
    if n <= 1 then 0 else 1 + Height(HalfUp(n))
  }

  lemma {:induction false} HeightIsRoot(n: nat)
    requires n > 0
    ensures Width(n, Height(n)) == 1
    ensures forall k: nat :: k < Height(n) ==> Width(n, k) > 1
    decreases n
  {
    if n > 1 {
      HeightIsRoot(HalfUp(n));
      WidthShift(n, Height(HalfUp(n)));
      forall k: nat | k < Height(n) ensures Width(n, k) > 1 {
        if k > 0 { WidthShift(n, k - 1); }
      }
    }
  }

  predicate HasRight(n: nat, height: nat, pos: nat)
    requires height > 0
  {
    pos + pos + 1 < Width(n, height - 1)
  }

  /** The leaves below a node are `First` up to `Limit`, both as the source computes them. */
  function First(height: nat, pos: nat): nat { Shl(pos, height) }
  function Limit(n: nat, height: nat, pos: nat): nat {
    if First(height, pos + 1) < n then First(height, pos + 1) else n
  }

  /** A node that exists covers at least one leaf. */
  lemma {:induction false} NodeHasLeaf(n: nat, height: nat, pos: nat)
    requires pos < Width(n, height)
    ensures First(height, pos) < n
    decreases height
  {
    if height > 0 { NodeHasLeaf(n, height - 1, pos + pos); }
  }

  /** A missing right child covers none, so its sibling covers all the parent does. */
  lemma {:induction false} MissingHasNoLeaf(n: nat, height: nat, pos: nat)
    requires pos >= Width(n, height)
    ensures First(height, pos) >= n
    decreases height
  {
    if height > 0 { MissingHasNoLeaf(n, height - 1, pos + pos); }
  }

  lemma {:induction false} ShlMonotone(x: nat, y: nat, k: nat)
    requires x < y
    ensures Shl(x, k) < Shl(y, k)
    decreases k
  {
    if k > 0 { ShlMonotone(x + x, y + y, k - 1); }
  }

  // ---------------------------------------------------------------- hashing

  function CalcHash(h: Pair, txid: seq<Hash>, height: nat, pos: nat): Hash
    requires pos < Width(|txid|, height)
    decreases height
  {
    if height == 0 then txid[pos]
    else
      var left := CalcHash(h, txid, height - 1, pos + pos);
      var right := if HasRight(|txid|, height, pos) then CalcHash(h, txid, height - 1, pos + pos + 1) else left;
      h(left, right)
  }

  /** The two hashes combined at an inner node. */
  function Children(h: Pair, txid: seq<Hash>, height: nat, pos: nat): (r: (Hash, Hash))
    requires height > 0 && pos < Width(|txid|, height)
    ensures CalcHash(h, txid, height, pos) == h(r.0, r.1)
  {
    var left := CalcHash(h, txid, height - 1, pos + pos);
    (left, if HasRight(|txid|, height, pos) then CalcHash(h, txid, height - 1, pos + pos + 1) else left)
  }

  /** Every pair hashed in the full tree below a node. */
  ghost function TreePairs(h: Pair, txid: seq<Hash>, height: nat, pos: nat): set<Node>
    requires pos < Width(|txid|, height)
    decreases height
  {
    if height == 0 then {}
    else
      var left := TreePairs(h, txid, height - 1, pos + pos);
      var right := if HasRight(|txid|, height, pos) then TreePairs(h, txid, height - 1, pos + pos + 1) else {};
      {Children(h, txid, height, pos)} + left + right
  }

  /** All of those are in a given set. */
  ghost predicate TreeIn(h: Pair, txid: seq<Hash>, height: nat, pos: nat, all: set<Node>)
    requires pos < Width(|txid|, height)
    decreases height
  {
    height == 0 ||
    (&& Children(h, txid, height, pos) in all && TreeIn(h, txid, height - 1, pos + pos, all)
     && (HasRight(|txid|, height, pos) ==> TreeIn(h, txid, height - 1, pos + pos + 1, all)))
  }

  lemma {:induction false} TreePairsIn(h: Pair, txid: seq<Hash>, height: nat, pos: nat, all: set<Node>)
    requires pos < Width(|txid|, height) && TreePairs(h, txid, height, pos) <= all
    ensures TreeIn(h, txid, height, pos, all)
    decreases height
  {
    if height > 0 {
      TreeParts(h, txid, height, pos, all);
      TreePairsIn(h, txid, height - 1, pos + pos, all);
      if HasRight(|txid|, height, pos) { TreePairsIn(h, txid, height - 1, pos + pos + 1, all); }
    }
  }

  lemma TreeParts(h: Pair, txid: seq<Hash>, height: nat, pos: nat, all: set<Node>)
    requires height > 0 && pos < Width(|txid|, height) && TreePairs(h, txid, height, pos) <= all
    ensures Children(h, txid, height, pos) in all && TreePairs(h, txid, height - 1, pos + pos) <= all
    ensures HasRight(|txid|, height, pos) ==> TreePairs(h, txid, height - 1, pos + pos + 1) <= all
  {}

  /** Equal node hashes at the same height mean equal first leaves, or a clash below them. */
  lemma {:induction false} EqualNodes(h: Pair, txid: seq<Hash>, height: nat, p: nat, q: nat, all: set<Node>)
    requires p < Width(|txid|, height) && q < Width(|txid|, height) && !Clash(h, all, all)
    requires CalcHash(h, txid, height, p) == CalcHash(h, txid, height, q)
    requires TreeIn(h, txid, height, p, all) && TreeIn(h, txid, height, q, all)
    ensures First(height, p) < |txid| && First(height, q) < |txid| && txid[First(height, p)] == txid[First(height, q)]
    decreases height
  {
    NodeHasLeaf(|txid|, height, p);
    NodeHasLeaf(|txid|, height, q);
    if height > 0 {
      assert !Collide(h, Children(h, txid, height, p), Children(h, txid, height, q));
      EqualNodes(h, txid, height - 1, p + p, q + q, all);
    }
  }

  predicate Differ(txid: seq<Hash>, i: int, j: int) { 0 <= i < j < |txid| ==> txid[i] != txid[j] }

  ghost predicate Distinct(txid: seq<Hash>) { forall i, j :: Differ(txid, i, j) }

  lemma FirstLeavesDiffer(txid: seq<Hash>, height: nat, l: nat, r: nat)
    requires Distinct(txid) && l < r < Width(|txid|, height)
    ensures First(height, l) < First(height, r) < |txid| && txid[First(height, l)] != txid[First(height, r)]
  {
    ShlMonotone(l, r, height);
    NodeHasLeaf(|txid|, height, r);
    assert Differ(txid, First(height, l), First(height, r));
  }

  /** With distinct txids two nodes of one level never have equal hashes. */
  lemma NodesDiffer(h: Pair, txid: seq<Hash>, height: nat, l: nat, r: nat, all: set<Node>)
    requires Distinct(txid) && l < r < Width(|txid|, height) && !Clash(h, all, all)
    requires TreeIn(h, txid, height, l, all) && TreeIn(h, txid, height, r, all)
    ensures CalcHash(h, txid, height, l) != CalcHash(h, txid, height, r)
  {
    FirstLeavesDiffer(txid, height, l, r);
    if CalcHash(h, txid, height, l) == CalcHash(h, txid, height, r) { EqualNodes(h, txid, height, l, r, all); }
  }

  /** No node below has two children with the same hash. */
  ghost predicate SiblingsDiffer(h: Pair, txid: seq<Hash>, height: nat, pos: nat)
    requires pos < Width(|txid|, height)
    decreases height
  {
    height == 0 ||
    (&& SiblingsDiffer(h, txid, height - 1, pos + pos)
     && (HasRight(|txid|, height, pos) ==>
           && SiblingsDiffer(h, txid, height - 1, pos + pos + 1)
           && CalcHash(h, txid, height - 1, pos + pos) != CalcHash(h, txid, height - 1, pos + pos + 1)))
  }

  lemma {:induction false} DistinctSiblings(h: Pair, txid: seq<Hash>, height: nat, pos: nat, all: set<Node>)
    requires pos < Width(|txid|, height) && Distinct(txid) && !Clash(h, all, all) && TreeIn(h, txid, height, pos, all)
    ensures SiblingsDiffer(h, txid, height, pos)
    decreases height
  {
    if height > 0 {
      DistinctSiblings(h, txid, height - 1, pos + pos, all);
      if HasRight(|txid|, height, pos) {
        DistinctSiblings(h, txid, height - 1, pos + pos + 1, all);
        NodesDiffer(h, txid, height - 1, pos + pos, pos + pos + 1, all);
      }
    }
  }

  // --------------------------------------------------------------- encoding

  /** Whether a match lies among the leaves `lo` to `hi`. */
  predicate AnyMatch(match_: seq<bool>, lo: nat, hi: nat)
    requires hi <= |match_|
    decreases hi - lo
  {
    lo < hi && (match_[lo] || AnyMatch(match_, lo + 1, hi))
  }

  lemma {:induction false} AnyMatchMeans(match_: seq<bool>, lo: nat, hi: nat)
    requires hi <= |match_|
    ensures AnyMatch(match_, lo, hi) <==> exists p :: lo <= p < hi && match_[p]
    decreases hi - lo
  {
    if lo < hi { AnyMatchMeans(match_, lo + 1, hi); }
  }

  lemma {:induction false} AnyMatchConcat(match_: seq<bool>, lo: nat, mid: nat, hi: nat)
    requires lo <= mid <= hi <= |match_|
    ensures AnyMatch(match_, lo, hi) <==> AnyMatch(match_, lo, mid) || AnyMatch(match_, mid, hi)
    decreases mid - lo
  {
    if lo < mid { AnyMatchConcat(match_, lo + 1, mid, hi); }
  }

  /** Whether a match lies among the leaves below a node. */
  predicate ParentOfMatch(match_: seq<bool>, height: nat, pos: nat) {
    AnyMatch(match_, First(height, pos), Limit(|match_|, height, pos))
  }

  /** The children share out the leaves of their parent. */
  lemma LeavesSplit(n: nat, height: nat, pos: nat)
    requires height > 0 && pos < Width(n, height)
    ensures pos + pos < Width(n, height - 1)
    ensures First(height, pos) == First(height - 1, pos + pos) <= Limit(n, height - 1, pos + pos)
    ensures HasRight(n, height, pos) ==>
              Limit(n, height - 1, pos + pos) ==
                First(height - 1, pos + pos + 1) <= Limit(n, height - 1, pos + pos + 1) == Limit(n, height, pos)
    ensures !HasRight(n, height, pos) ==> Limit(n, height - 1, pos + pos) == Limit(n, height, pos)
  {
    NodeHasLeaf(n, height - 1, pos + pos);
    ShlMonotone(pos + pos, pos + pos + 1, height - 1);
    ShlMonotone(pos + pos + 1, pos + pos + 2, height - 1);
    if HasRight(n, height, pos) { NodeHasLeaf(n, height - 1, pos + pos + 1); }
    else { MissingHasNoLeaf(n, height - 1, pos + pos + 1); }
  }

  lemma ParentSplit(match_: seq<bool>, height: nat, pos: nat)
    requires height > 0 && pos < Width(|match_|, height)
    ensures pos + pos < Width(|match_|, height - 1)
    ensures ParentOfMatch(match_, height, pos) <==>
              ParentOfMatch(match_, height - 1, pos + pos) ||
              (HasRight(|match_|, height, pos) && ParentOfMatch(match_, height - 1, pos + pos + 1))
  {
    LeavesSplit(|match_|, height, pos);
    if HasRight(|match_|, height, pos) {
      AnyMatchConcat(match_, First(height, pos), First(height - 1, pos + pos + 1), Limit(|match_|, height, pos));
    }
  }

  datatype Encoding = Encoding(bits: seq<bool>, hashes: seq<Hash>)

  /** The flag bits `TraverseAndBuild` pushes below a node. */
  function Bits(match_: seq<bool>, height: nat, pos: nat): (r: seq<bool>)
    ensures r != []
    decreases height
  {
    if height == 0 || !ParentOfMatch(match_, height, pos) then [ParentOfMatch(match_, height, pos)]
    else if HasRight(|match_|, height, pos) then
      [true] + Bits(match_, height - 1, pos + pos) + Bits(match_, height - 1, pos + pos + 1)
    else [true] + Bits(match_, height - 1, pos + pos)
  }

  /** The hashes it pushes. */
  function Hashes(h: Pair, txid: seq<Hash>, match_: seq<bool>, height: nat, pos: nat): (r: seq<Hash>)
    requires |match_| == |txid| && pos < Width(|txid|, height)
    ensures r != []
    decreases height
  {
    if height == 0 || !ParentOfMatch(match_, height, pos) then [CalcHash(h, txid, height, pos)]
    else if HasRight(|match_|, height, pos) then
      Hashes(h, txid, match_, height - 1, pos + pos) + Hashes(h, txid, match_, height - 1, pos + pos + 1)
    else Hashes(h, txid, match_, height - 1, pos + pos)
  }

  /** The `CPartialMerkleTree` constructor. */
  function Build(h: Pair, txid: seq<Hash>, match_: seq<bool>): Encoding
    requires |match_| == |txid| > 0
  {
    HeightIsRoot(|txid|);
    Encoding(Bits(match_, Height(|txid|), 0), Hashes(h, txid, match_, Height(|txid|), 0))
  }

  // --------------------------------------------------------------- decoding

  datatype Extraction = Extraction(bad: bool, hash: Hash, bitsUsed: nat, hashUsed: nat, vMatch: seq<Hash>,
    vnIndex: seq<nat>)

  /** `TraverseAndExtract` on any bits and hashes whatsoever. */
  function Extract(
      h: Pair, n: nat, e: Encoding, height: nat, pos: nat, bitsUsed: nat, hashUsed: nat, bad: bool): (r: Extraction)
    ensures bad ==> r.bad
    decreases height
  {
    if bitsUsed >= |e.bits| then Extraction(true, NULL_HASH, bitsUsed, hashUsed, [], [])
    else
      var parent := e.bits[bitsUsed];
      if height == 0 || !parent then
        if hashUsed >= |e.hashes| then Extraction(true, NULL_HASH, bitsUsed + 1, hashUsed, [], [])
        else if height == 0 && parent then
          Extraction(bad, e.hashes[hashUsed], bitsUsed + 1, hashUsed + 1, [e.hashes[hashUsed]], [pos])
        else Extraction(bad, e.hashes[hashUsed], bitsUsed + 1, hashUsed + 1, [], [])
      else
        var left := Extract(h, n, e, height - 1, pos + pos, bitsUsed + 1, hashUsed, bad);
        if HasRight(n, height, pos) then
          var right := Extract(h, n, e, height - 1, pos + pos + 1, left.bitsUsed, left.hashUsed, left.bad);
          Extraction(right.bad || right.hash == left.hash, h(left.hash, right.hash), right.bitsUsed, right.hashUsed,
                     left.vMatch + right.vMatch, left.vnIndex + right.vnIndex)
        else left.(hash := h(left.hash, left.hash))
  }

  /** `ExtractMatches`: the root (or null on failure), the matched txids and their indices. */
  function ExtractMatches(h: Pair, n: nat, e: Encoding): (Hash, seq<Hash>, seq<nat>) {
    if n == 0 || n > MAX_TRANSACTIONS || |e.hashes| > n || |e.bits| < |e.hashes| then (NULL_HASH, [], [])
    else
      var r := Extract(h, n, e, Height(n), 0, 0, 0, false);
      if r.bad || (r.bitsUsed + 7) / 8 != (|e.bits| + 7) / 8 || r.hashUsed != |e.hashes|
      then (NULL_HASH, r.vMatch, r.vnIndex)
      else (r.hash, r.vMatch, r.vnIndex)
  }

  /** Whether checking an encoding that passes the size tests marks it bad. */
  predicate Spoils(h: Pair, n: nat, e: Encoding) {
    && 0 < n <= MAX_TRANSACTIONS && |e.hashes| <= n && |e.hashes| <= |e.bits|
    && Extract(h, n, e, Height(n), 0, 0, 0, false).bad
  }

  /** A mark from before changes nothing but itself. */
  lemma {:induction false} BadBefore(
      h: Pair, n: nat, e: Encoding, height: nat, pos: nat, bitsUsed: nat, hashUsed: nat, x: Extraction)
    requires x == Extract(h, n, e, height, pos, bitsUsed, hashUsed, false)
    ensures Extract(h, n, e, height, pos, bitsUsed, hashUsed, true) == x.(bad := true)
    decreases height
  {
    if bitsUsed < |e.bits| && height > 0 && e.bits[bitsUsed] {
      var l := Extract(h, n, e, height - 1, pos + pos, bitsUsed + 1, hashUsed, false);
      BadBefore(h, n, e, height - 1, pos + pos, bitsUsed + 1, hashUsed, l);
      BadBefore(h, n, e, height - 1, pos + pos + 1, l.bitsUsed, l.hashUsed,
        Extract(h, n, e, height - 1, pos + pos + 1, l.bitsUsed, l.hashUsed, false));
    }
  }

  // -------------------------------------------------------------- soundness

  /** Every reported txid is the one at the reported index. */
  predicate AllReal(txid: seq<Hash>, vMatch: seq<Hash>, vnIndex: seq<nat>) {
    |vMatch| == |vnIndex| && forall k :: 0 <= k < |vnIndex| ==> vnIndex[k] < |txid| && txid[vnIndex[k]] == vMatch[k]
  }

  /** Every pair hashed while a proof is checked. */
  ghost function ProofPairs(
    h: Pair, n: nat, e: Encoding, height: nat, pos: nat, bitsUsed: nat, hashUsed: nat, bad: bool): set<Node>
    decreases height
  {
    if bitsUsed >= |e.bits| || height == 0 || !e.bits[bitsUsed] then {}
    else
      var left := Extract(h, n, e, height - 1, pos + pos, bitsUsed + 1, hashUsed, bad);
      var below := ProofPairs(h, n, e, height - 1, pos + pos, bitsUsed + 1, hashUsed, bad);
      if HasRight(n, height, pos) then
        var right := Extract(h, n, e, height - 1, pos + pos + 1, left.bitsUsed, left.hashUsed, left.bad);
        below + ProofPairs(h, n, e, height - 1, pos + pos + 1, left.bitsUsed, left.hashUsed, left.bad) +
          {(left.hash, right.hash)}
      else below + {(left.hash, left.hash)}
  }

  /** If a node that descends arrives at the real hash, so do its children. */
  lemma ChildrenReal(
    h: Pair, txid: seq<Hash>, height: nat, pos: nat, proof: set<Node>, tree: set<Node>, left: Hash, right: Hash)
    requires height > 0 && pos < Width(|txid|, height) && (left, right) in proof && !Clash(h, proof, tree)
    requires Children(h, txid, height, pos) in tree && h(left, right) == CalcHash(h, txid, height, pos)
    ensures (left, right) == Children(h, txid, height, pos)
  {
    assert !Collide(h, (left, right), Children(h, txid, height, pos));
  }

  ghost predicate ProofIn(
    h: Pair, n: nat, e: Encoding, height: nat, pos: nat, bitsUsed: nat, hashUsed: nat, bad: bool, proof: set<Node>)
    decreases height
  {
    bitsUsed >= |e.bits| || height == 0 || !e.bits[bitsUsed] ||
    var left := Extract(h, n, e, height - 1, pos + pos, bitsUsed + 1, hashUsed, bad);
    && ProofIn(h, n, e, height - 1, pos + pos, bitsUsed + 1, hashUsed, bad, proof)
    && if HasRight(n, height, pos) then
         var right := Extract(h, n, e, height - 1, pos + pos + 1, left.bitsUsed, left.hashUsed, left.bad);
         && ProofIn(h, n, e, height - 1, pos + pos + 1, left.bitsUsed, left.hashUsed, left.bad, proof)
         && (left.hash, right.hash) in proof
       else (left.hash, left.hash) in proof
  }

  lemma ProofParts(
    h: Pair, n: nat, e: Encoding, height: nat, pos: nat, bitsUsed: nat, hashUsed: nat, bad: bool, proof: set<Node>,
      left: Extraction)
    requires height > 0 && bitsUsed < |e.bits| && e.bits[bitsUsed]
    requires ProofPairs(h, n, e, height, pos, bitsUsed, hashUsed, bad) <= proof
    requires left == Extract(h, n, e, height - 1, pos + pos, bitsUsed + 1, hashUsed, bad)
    ensures ProofPairs(h, n, e, height - 1, pos + pos, bitsUsed + 1, hashUsed, bad) <= proof
    ensures HasRight(n, height, pos) ==>
      var right := Extract(h, n, e, height - 1, pos + pos + 1, left.bitsUsed, left.hashUsed, left.bad);
      && ProofPairs(h, n, e, height - 1, pos + pos + 1, left.bitsUsed, left.hashUsed, left.bad) <= proof
      && (left.hash, right.hash) in proof
    ensures !HasRight(n, height, pos) ==> (left.hash, left.hash) in proof
  {}

  lemma {:induction false} ProofPairsIn(
    h: Pair, n: nat, e: Encoding, height: nat, pos: nat, bitsUsed: nat, hashUsed: nat, bad: bool, proof: set<Node>)
    requires ProofPairs(h, n, e, height, pos, bitsUsed, hashUsed, bad) <= proof
    ensures ProofIn(h, n, e, height, pos, bitsUsed, hashUsed, bad, proof)
    decreases height
  {
    if bitsUsed < |e.bits| && height > 0 && e.bits[bitsUsed] {
      var left := Extract(h, n, e, height - 1, pos + pos, bitsUsed + 1, hashUsed, bad);
      ProofParts(h, n, e, height, pos, bitsUsed, hashUsed, bad, proof, left);
      ProofPairsIn(h, n, e, height - 1, pos + pos, bitsUsed + 1, hashUsed, bad, proof);
      if HasRight(n, height, pos) {
        ProofPairsIn(h, n, e, height - 1, pos + pos + 1, left.bitsUsed, left.hashUsed, left.bad, proof);
      }
    }
  }

  ghost predicate Combines(h: Pair, n: nat, height: nat, pos: nat, left: Extraction, right: Extraction, x: Extraction)
    requires height > 0
  {
    x ==
      if HasRight(n, height, pos) then
        Extraction(right.bad || right.hash == left.hash, h(left.hash, right.hash), right.bitsUsed, right.hashUsed,
                   left.vMatch + right.vMatch, left.vnIndex + right.vnIndex)
      else left.(hash := h(left.hash, left.hash))
  }

  /** One step of checking, from the results for the children. */
  lemma ExtractParts(
    h: Pair, n: nat, e: Encoding, height: nat, pos: nat, bitsUsed: nat, hashUsed: nat, bad: bool,
    left: Extraction, right: Extraction, x: Extraction)
    requires height > 0 && bitsUsed < |e.bits| && e.bits[bitsUsed]
    requires x == Extract(h, n, e, height, pos, bitsUsed, hashUsed, bad)
    requires left == Extract(h, n, e, height - 1, pos + pos, bitsUsed + 1, hashUsed, bad)
    requires right == Extract(h, n, e, height - 1, pos + pos + 1, left.bitsUsed, left.hashUsed, left.bad)
    ensures Combines(h, n, height, pos, left, right, x)
  {}

  lemma {:induction false} ExtractSound(
    h: Pair, txid: seq<Hash>, e: Encoding, height: nat, pos: nat, bitsUsed: nat, hashUsed: nat, bad: bool,
    proof: set<Node>, tree: set<Node>, x: Extraction)
    requires pos < Width(|txid|, height) && x == Extract(h, |txid|, e, height, pos, bitsUsed, hashUsed, bad)
    requires ProofIn(h, |txid|, e, height, pos, bitsUsed, hashUsed, bad, proof)
    requires TreeIn(h, txid, height, pos, tree) && !Clash(h, proof, tree)
    requires !x.bad && x.hash == CalcHash(h, txid, height, pos)
    ensures AllReal(txid, x.vMatch, x.vnIndex)
    decreases height
  {
    if height > 0 && e.bits[bitsUsed] {
      var left := Extract(h, |txid|, e, height - 1, pos + pos, bitsUsed + 1, hashUsed, bad);
      var right := Extract(h, |txid|, e, height - 1, pos + pos + 1, left.bitsUsed, left.hashUsed, left.bad);
      ExtractParts(h, |txid|, e, height, pos, bitsUsed, hashUsed, bad, left, right, x);
      if HasRight(|txid|, height, pos) {
        ChildrenReal(h, txid, height, pos, proof, tree, left.hash, right.hash);
        ExtractSound(h, txid, e, height - 1, pos + pos, bitsUsed + 1, hashUsed, bad, proof, tree, left);
        ExtractSound(h, txid, e, height - 1, pos + pos + 1, left.bitsUsed, left.hashUsed, left.bad, proof, tree, right);
        RealConcat(txid, left, right);
      } else {
        ChildrenReal(h, txid, height, pos, proof, tree, left.hash, left.hash);
        ExtractSound(h, txid, e, height - 1, pos + pos, bitsUsed + 1, hashUsed, bad, proof, tree, left);
      }
    }
  }

  lemma RealConcat(txid: seq<Hash>, a: Extraction, b: Extraction)
    requires AllReal(txid, a.vMatch, a.vnIndex) && AllReal(txid, b.vMatch, b.vnIndex)
    ensures AllReal(txid, a.vMatch + b.vMatch, a.vnIndex + b.vnIndex)
  {}

  /** Proof soundness: whatever bits and hashes are presented, a proof that arrives at the real
      root reports only real transactions at their real positions, or a pair hashed while checking
      it and a different pair of the tree have the same hash. */
  lemma Soundness(h: Pair, txid: seq<Hash>, e: Encoding)
    requires |txid| > 0
    ensures Width(|txid|, Height(|txid|)) == 1
    ensures var root := CalcHash(h, txid, Height(|txid|), 0);
      var r := ExtractMatches(h, |txid|, e);
      root != NULL_HASH && r.0 == root ==>
        || AllReal(txid, r.1, r.2)
        || Clash(h, ProofPairs(h, |txid|, e, Height(|txid|), 0, 0, 0, false), TreePairs(h, txid, Height(|txid|), 0))
  {
    HeightIsRoot(|txid|);
    var height := Height(|txid|);
    var root := CalcHash(h, txid, height, 0);
    var proof, tree := ProofPairs(h, |txid|, e, height, 0, 0, 0, false), TreePairs(h, txid, height, 0);
    if root != NULL_HASH && ExtractMatches(h, |txid|, e).0 == root && !Clash(h, proof, tree) {
      ProofPairsIn(h, |txid|, e, height, 0, 0, 0, false, proof);
      TreePairsIn(h, txid, height, 0, tree);
      ExtractSound(h, txid, e, height, 0, 0, 0, false, proof, tree, Extract(h, |txid|, e, height, 0, 0, 0, false));
    }
  }

  // ----------------------------------------------------------- completeness

  /** The matched indices among leaves `lo` to `hi`, in order. */
  function Matched(match_: seq<bool>, lo: nat, hi: nat): seq<nat>
    requires lo <= hi <= |match_|
    decreases hi - lo
  {
    if lo == hi then [] else (if match_[lo] then [lo] else []) + Matched(match_, lo + 1, hi)
  }

  lemma {:induction false} MatchedConcat(match_: seq<bool>, lo: nat, mid: nat, hi: nat)
    requires lo <= mid <= hi <= |match_|
    ensures Matched(match_, lo, hi) == Matched(match_, lo, mid) + Matched(match_, mid, hi)
    decreases mid - lo
  {
    if lo < mid { MatchedConcat(match_, lo + 1, mid, hi); }
  }

  lemma {:induction false} MatchedNone(match_: seq<bool>, lo: nat, hi: nat)
    requires lo <= hi <= |match_|
    ensures Matched(match_, lo, hi) == [] <==> !AnyMatch(match_, lo, hi)
    decreases hi - lo
  {
    if lo < hi { MatchedNone(match_, lo + 1, hi); }
  }

  function MatchedBelow(match_: seq<bool>, height: nat, pos: nat): seq<nat>
    requires pos < Width(|match_|, height)
  {
    NodeHasLeaf(|match_|, height, pos);
    ShlMonotone(pos, pos + 1, height);
    Matched(match_, First(height, pos), Limit(|match_|, height, pos))
  }

  lemma MatchedSplit(match_: seq<bool>, height: nat, pos: nat)
    requires height > 0 && pos < Width(|match_|, height)
    ensures pos + pos < Width(|match_|, height - 1)
    ensures MatchedBelow(match_, height, pos) ==
              MatchedBelow(match_, height - 1, pos + pos) +
              if HasRight(|match_|, height, pos) then MatchedBelow(match_, height - 1, pos + pos + 1) else []
  {
    LeavesSplit(|match_|, height, pos);
    if HasRight(|match_|, height, pos) {
      MatchedConcat(match_, First(height, pos), First(height - 1, pos + pos + 1), Limit(|match_|, height, pos));
    }
  }

  lemma MatchedLeaf(match_: seq<bool>, pos: nat)
    requires pos < |match_|
    ensures MatchedBelow(match_, 0, pos) == if match_[pos] then [pos] else []
    ensures ParentOfMatch(match_, 0, pos) <==> match_[pos]
  {
    assert Matched(match_, pos + 1, pos + 1) == [] && !AnyMatch(match_, pos + 1, pos + 1);
  }

  /** `part` sits in `s` at position `i`. */
  predicate Within<T(==)>(part: seq<T>, s: seq<T>, i: nat) { i <= |s| && part <= s[i..] }

  lemma WithinConcat<T>(a: seq<T>, b: seq<T>, s: seq<T>, i: nat)
    requires Within(a + b, s, i)
    ensures Within(a, s, i) && Within(b, s, i + |a|)
  {
    assert s[i + |a|..] == s[i..][|a|..];
    assert (a + b)[|a|..] == b;
  }

  lemma WithinFirst<T>(part: seq<T>, s: seq<T>, i: nat)
    requires Within(part, s, i) && part != []
    ensures i < |s| && s[i] == part[0]
  {
    assert s[i..][0] == part[0];
  }

  /** The encoded subtree sits in `e` at the given cursors. */
  predicate At(
      h: Pair, txid: seq<Hash>, match_: seq<bool>, height: nat, pos: nat, e: Encoding, bitsUsed: nat, hashUsed: nat)
    requires |match_| == |txid| && pos < Width(|txid|, height)
  {
    Within(Bits(match_, height, pos), e.bits, bitsUsed) &&
      Within(Hashes(h, txid, match_, height, pos), e.hashes, hashUsed)
  }

  /** What decoding an encoded subtree must yield. */
  predicate Decoded(
      h: Pair, txid: seq<Hash>, match_: seq<bool>, height: nat, pos: nat, bitsUsed: nat, hashUsed: nat,
      r: Extraction)
    requires |match_| == |txid| && pos < Width(|txid|, height)
  {
    && !r.bad && r.hash == CalcHash(h, txid, height, pos)
    && r.bitsUsed == bitsUsed + |Bits(match_, height, pos)|
    && r.hashUsed == hashUsed + |Hashes(h, txid, match_, height, pos)|
    && r.vnIndex == MatchedBelow(match_, height, pos) && AllReal(txid, r.vMatch, r.vnIndex)
  }

  lemma ExtractStored(
      h: Pair, txid: seq<Hash>, match_: seq<bool>, height: nat, pos: nat, e: Encoding, bitsUsed: nat, hashUsed: nat)
    requires |match_| == |txid| && pos < Width(|txid|, height)
    requires height == 0 || !ParentOfMatch(match_, height, pos)
    requires At(h, txid, match_, height, pos, e, bitsUsed, hashUsed)
    ensures Decoded(h, txid, match_, height, pos, bitsUsed, hashUsed,
      Extract(h, |txid|, e, height, pos, bitsUsed, hashUsed, false))
  {
    WithinFirst(Bits(match_, height, pos), e.bits, bitsUsed);
    WithinFirst(Hashes(h, txid, match_, height, pos), e.hashes, hashUsed);
    if height == 0 { MatchedLeaf(match_, pos); }
    else {
      NodeHasLeaf(|txid|, height, pos);
      ShlMonotone(pos, pos + 1, height);
      MatchedNone(match_, First(height, pos), Limit(|txid|, height, pos));
    }
  }

  lemma CutBits(match_: seq<bool>, height: nat, pos: nat, bits: seq<bool>, i: nat)
    requires height > 0 && ParentOfMatch(match_, height, pos) && Within(Bits(match_, height, pos), bits, i)
    ensures i < |bits| && bits[i]
    ensures var l := Bits(match_, height - 1, pos + pos);
      && Within(l, bits, i + 1)
      && (HasRight(|match_|, height, pos) ==> Within(Bits(match_, height - 1, pos + pos + 1), bits, i + 1 + |l|))
  {
    WithinFirst(Bits(match_, height, pos), bits, i);
    var l := Bits(match_, height - 1, pos + pos);
    if HasRight(|match_|, height, pos) {
      WithinConcat([true] + l, Bits(match_, height - 1, pos + pos + 1), bits, i);
    }
    WithinConcat([true], l, bits, i);
  }

  lemma CutHashes(h: Pair, txid: seq<Hash>, match_: seq<bool>, height: nat, pos: nat, hashes: seq<Hash>, i: nat)
    requires |match_| == |txid| && pos < Width(|txid|, height)
    requires height > 0 && ParentOfMatch(match_, height, pos) && Within(Hashes(h, txid, match_, height, pos), hashes, i)
    ensures var l := Hashes(h, txid, match_, height - 1, pos + pos);
      && Within(l, hashes, i)
      && (HasRight(|match_|, height, pos) ==> Within(Hashes(h, txid, match_, height - 1, pos + pos + 1), hashes,
        i + |l|))
  {
    if HasRight(|match_|, height, pos) {
      WithinConcat(Hashes(h, txid, match_, height - 1, pos + pos), Hashes(h, txid, match_, height - 1, pos + pos + 1),
        hashes, i);
    }
  }

  /** From the decoded only child to the decoded node. */
  lemma DecodeOne(h: Pair, txid: seq<Hash>, match_: seq<bool>, height: nat, pos: nat, bitsUsed: nat, hashUsed: nat,
                  left: Extraction, x: Extraction)
    requires |match_| == |txid| && height > 0 && pos < Width(|txid|, height) && ParentOfMatch(match_, height, pos)
    requires !HasRight(|txid|, height, pos) && x == left.(hash := h(left.hash, left.hash))
    requires Decoded(h, txid, match_, height - 1, pos + pos, bitsUsed + 1, hashUsed, left)
    ensures Decoded(h, txid, match_, height, pos, bitsUsed, hashUsed, x)
  {
    MatchedSplit(match_, height, pos);
  }

  /** From the two decoded children to the decoded node. */
  lemma DecodeTwo(h: Pair, txid: seq<Hash>, match_: seq<bool>, height: nat, pos: nat, bitsUsed: nat, hashUsed: nat,
                  left: Extraction, right: Extraction, x: Extraction)
    requires |match_| == |txid| && height > 0 && pos < Width(|txid|, height) && ParentOfMatch(match_, height, pos)
    requires HasRight(|txid|, height, pos)
    requires Decoded(h, txid, match_, height - 1, pos + pos, bitsUsed + 1, hashUsed, left)
    requires Decoded(h, txid, match_, height - 1, pos + pos + 1, left.bitsUsed, left.hashUsed, right)
    requires x == Extraction(false, h(left.hash, right.hash), right.bitsUsed, right.hashUsed,
                             left.vMatch + right.vMatch, left.vnIndex + right.vnIndex)
    ensures Decoded(h, txid, match_, height, pos, bitsUsed, hashUsed, x)
  {
    MatchedSplit(match_, height, pos);
    RealConcat(txid, left, right);
  }

  lemma LeftAt(
      h: Pair, txid: seq<Hash>, match_: seq<bool>, height: nat, pos: nat, e: Encoding, bitsUsed: nat, hashUsed: nat)
    requires |match_| == |txid| && height > 0 && pos < Width(|txid|, height) && ParentOfMatch(match_, height, pos)
    requires At(h, txid, match_, height, pos, e, bitsUsed, hashUsed)
    ensures bitsUsed < |e.bits| && e.bits[bitsUsed]
    ensures At(h, txid, match_, height - 1, pos + pos, e, bitsUsed + 1, hashUsed)
  {
    CutBits(match_, height, pos, e.bits, bitsUsed);
    CutHashes(h, txid, match_, height, pos, e.hashes, hashUsed);
  }

  lemma RightAt(
      h: Pair, txid: seq<Hash>, match_: seq<bool>, height: nat, pos: nat, e: Encoding, bitsUsed: nat, hashUsed: nat,
      bitsNow: nat, hashNow: nat)
    requires |match_| == |txid| && height > 0 && pos < Width(|txid|, height) && ParentOfMatch(match_, height, pos)
    requires At(h, txid, match_, height, pos, e, bitsUsed, hashUsed) && HasRight(|txid|, height, pos)
    requires bitsNow == bitsUsed + 1 + |Bits(match_, height - 1, pos + pos)|
    requires hashNow == hashUsed + |Hashes(h, txid, match_, height - 1, pos + pos)|
    ensures At(h, txid, match_, height - 1, pos + pos + 1, e, bitsNow, hashNow)
  {
    CutBits(match_, height, pos, e.bits, bitsUsed);
    CutHashes(h, txid, match_, height, pos, e.hashes, hashUsed);
  }

  /** Decoding retraces the encoder and recovers every subtree exactly. */
  lemma {:induction false} ExtractBuild(
    h: Pair, txid: seq<Hash>, match_: seq<bool>, height: nat, pos: nat, e: Encoding, bitsUsed: nat, hashUsed: nat,
    x: Extraction)
    requires |match_| == |txid| && pos < Width(|txid|, height) && SiblingsDiffer(h, txid, height, pos)
    requires At(h, txid, match_, height, pos, e, bitsUsed, hashUsed)
    requires x == Extract(h, |txid|, e, height, pos, bitsUsed, hashUsed, false)
    ensures Decoded(h, txid, match_, height, pos, bitsUsed, hashUsed, x)
    decreases height, 1
  {
    if height == 0 || !ParentOfMatch(match_, height, pos) {
      ExtractStored(h, txid, match_, height, pos, e, bitsUsed, hashUsed);
    } else {
      LeftAt(h, txid, match_, height, pos, e, bitsUsed, hashUsed);
      var left := Extract(h, |txid|, e, height - 1, pos + pos, bitsUsed + 1, hashUsed, false);
      var right := Extract(h, |txid|, e, height - 1, pos + pos + 1, left.bitsUsed, left.hashUsed, left.bad);
      ExtractParts(h, |txid|, e, height, pos, bitsUsed, hashUsed, false, left, right, x);
      ExtractBuild(h, txid, match_, height - 1, pos + pos, e, bitsUsed + 1, hashUsed, left);
      if HasRight(|txid|, height, pos) {
        ExtractRight(h, txid, match_, height, pos, e, bitsUsed, hashUsed, left, right, x);
      } else {
        DecodeOne(h, txid, match_, height, pos, bitsUsed, hashUsed, left, x);
      }
    }
  }

  /** The rest of a node with two children, the left of which has been decoded. */
  lemma {:induction false} ExtractRight(
    h: Pair, txid: seq<Hash>, match_: seq<bool>, height: nat, pos: nat, e: Encoding, bitsUsed: nat, hashUsed: nat,
    left: Extraction, right: Extraction, x: Extraction)
    requires height > 0
    requires right == Extract(h, |txid|, e, height - 1, pos + pos + 1, left.bitsUsed, left.hashUsed, false)
    requires Combines(h, |txid|, height, pos, left, right, x) && HasRight(|txid|, height, pos)
    requires |match_| == |txid| && Decoded(h, txid, match_, height - 1, pos + pos, bitsUsed + 1, hashUsed, left)
    requires pos < Width(|txid|, height) && ParentOfMatch(match_, height, pos)
    requires SiblingsDiffer(h, txid, height, pos) && At(h, txid, match_, height, pos, e, bitsUsed, hashUsed)
    ensures Decoded(h, txid, match_, height, pos, bitsUsed, hashUsed, x)
    decreases height, 0
  {
    RightAt(h, txid, match_, height, pos, e, bitsUsed, hashUsed, left.bitsUsed, left.hashUsed);
    ExtractBuild(h, txid, match_, height - 1, pos + pos + 1, e, left.bitsUsed, left.hashUsed, right);
    DecodeTwo(h, txid, match_, height, pos, bitsUsed, hashUsed, left, right, x);
  }

  lemma RootCoversAll(n: nat)
    requires n > 0
    ensures Width(n, Height(n)) == 1 && First(Height(n), 0) == 0 && Limit(n, Height(n), 0) == n
  {
    HeightIsRoot(n);
    ShlZero(Height(n));
    MissingHasNoLeaf(n, Height(n), 1);
  }

  lemma {:induction false} ShlZero(k: nat)
    ensures Shl(0, k) == 0
  {
    if k > 0 { ShlZero(k - 1); }
  }

  // ------------------------------------------------------------ encoded size

  /** Expanded nodes that have only one child. */
  function Singles(match_: seq<bool>, height: nat, pos: nat): nat
    decreases height
  {
    if height == 0 || !ParentOfMatch(match_, height, pos) then 0
    else if HasRight(|match_|, height, pos) then
      Singles(match_, height - 1, pos + pos) + Singles(match_, height - 1, pos + pos + 1)
    else 1 + Singles(match_, height - 1, pos + pos)
  }

  /** How many hashes are stored below a node. */
  function HashCount(match_: seq<bool>, height: nat, pos: nat): nat
    decreases height
  {
    if height == 0 || !ParentOfMatch(match_, height, pos) then 1
    else
      var l, r := pos + pos, pos + pos + 1;
      HashCount(match_, height - 1, l) + if r < Width(|match_|, height - 1) then HashCount(match_, height - 1, r) else 0
  }

  lemma {:induction false} HashCounted(h: Pair, txid: seq<Hash>, match_: seq<bool>, height: nat, pos: nat)
    requires |match_| == |txid| && pos < Width(|txid|, height)
    ensures |Hashes(h, txid, match_, height, pos)| == HashCount(match_, height, pos)
    decreases height
  {
    if height > 0 && ParentOfMatch(match_, height, pos) {
      var l, r := pos + pos, pos + pos + 1;
      HashCounted(h, txid, match_, height - 1, l);
      if HasRight(|txid|, height, pos) { HashCounted(h, txid, match_, height - 1, r); }
    }
  }

  /** One bit per visited node and one hash per visited leaf of the partial tree. */
  lemma {:induction false} BitsPerHash(match_: seq<bool>, height: nat, pos: nat)
    ensures |Bits(match_, height, pos)| + 1 ==
      HashCount(match_, height, pos) + HashCount(match_, height, pos) + Singles(match_, height, pos)
    decreases height
  {
    if height > 0 && ParentOfMatch(match_, height, pos) {
      var l, r := pos + pos, pos + pos + 1;
      BitsPerHash(match_, height - 1, l);
      if HasRight(|match_|, height, pos) {
        BitsPerHash(match_, height - 1, r);
        assert Bits(match_, height, pos) == [true] + Bits(match_, height - 1, l) + Bits(match_, height - 1, r);
      } else {
        assert Bits(match_, height, pos) == [true] + Bits(match_, height - 1, l);
      }
    }
  }

  /** Never more hashes than leaves. */
  lemma {:induction false} HashesPerLeaf(match_: seq<bool>, height: nat, pos: nat)
    requires pos < Width(|match_|, height)
    ensures HashCount(match_, height, pos) <= Limit(|match_|, height, pos) - First(height, pos)
    decreases height
  {
    NodeHasLeaf(|match_|, height, pos);
    ShlMonotone(pos, pos + 1, height);
    if height > 0 && ParentOfMatch(match_, height, pos) {
      LeavesSplit(|match_|, height, pos);
      var l, r := pos + pos, pos + pos + 1;
      HashesPerLeaf(match_, height - 1, l);
      if HasRight(|match_|, height, pos) { HashesPerLeaf(match_, height - 1, r); }
    }
  }

  lemma ParentHasMatch(match_: seq<bool>, height: nat, pos: nat)
    requires pos < Width(|match_|, height) && ParentOfMatch(match_, height, pos)
    ensures |MatchedBelow(match_, height, pos)| >= 1
  {
    NodeHasLeaf(|match_|, height, pos);
    ShlMonotone(pos, pos + 1, height);
    MatchedNone(match_, First(height, pos), Limit(|match_|, height, pos));
  }

  /** `1 + m * k`, level by level. */
  function Cap(m: nat, k: nat): nat { if k == 0 then 1 else m + Cap(m, k - 1) }

  lemma {:induction false} CapIs(m: nat, k: nat)
    ensures Cap(m, k) == 1 + m * k
    decreases k
  {
    if k > 0 {
      CapIs(m, k - 1);
      assert m * k == m * (k - 1) + m;
    }
  }

  lemma {:induction false} CapAdd(a: nat, b: nat, k: nat)
    ensures Cap(a, k) + Cap(b, k) == Cap(a + b, k) + 1
  {
    if k > 0 { CapAdd(a, b, k - 1); }
  }

  lemma {:induction false} CapPositive(m: nat, k: nat)
    ensures Cap(m, k) >= 1
  {
    if k > 0 { CapPositive(m, k - 1); }
  }

  /** At most one hash per matched transaction and level, and one more. */
  lemma {:induction false} HashesPerMatch(match_: seq<bool>, height: nat, pos: nat)
    requires pos < Width(|match_|, height)
    ensures HashCount(match_, height, pos) <= Cap(|MatchedBelow(match_, height, pos)|, height)
    decreases height
  {
    if height == 0 || !ParentOfMatch(match_, height, pos) {
      CapPositive(|MatchedBelow(match_, height, pos)|, height);
    } else {
      MatchedSplit(match_, height, pos);
      ParentHasMatch(match_, height, pos);
      HashesPerMatch(match_, height - 1, pos + pos);
      if HasRight(|match_|, height, pos) {
        HashesPerMatch(match_, height - 1, pos + pos + 1);
        CapAdd(|MatchedBelow(match_, height - 1, pos + pos)|, |MatchedBelow(match_, height - 1, pos + pos + 1)|,
          height - 1);
      }
    }
  }

  /** Single-child nodes below a node that is not the last of its level: none. */
  lemma {:induction false} InnerHasNoSingles(match_: seq<bool>, height: nat, pos: nat)
    requires pos + 1 < Width(|match_|, height)
    ensures Singles(match_, height, pos) == 0
    decreases height
  {
    if height > 0 {
      InnerHasNoSingles(match_, height - 1, pos + pos);
      InnerHasNoSingles(match_, height - 1, pos + pos + 1);
    }
  }

  /** Levels, up to a height, whose last node has one child only and covers a match. */
  function EdgeSingles(match_: seq<bool>, height: nat): (r: nat)
    requires |match_| > 0
    ensures r <= height
    decreases height
  {
    if height == 0 then 0
    else
      WidthPositive(|match_|, height);
      var last := Width(|match_|, height) - 1;
      EdgeSingles(match_, height - 1) +
        if !HasRight(|match_|, height, last) && ParentOfMatch(match_, height, last) then 1 else 0
  }

  lemma {:induction false} WidthPositive(n: nat, height: nat)
    requires n > 0
    ensures Width(n, height) > 0
    decreases height
  {
    if height > 0 { WidthPositive(n, height - 1); }
  }

  /** The last node's last child is the last node one level down. */
  lemma EdgeChild(n: nat, height: nat)
    requires n > 0 && height > 0
    ensures Width(n, height) > 0 && Width(n, height - 1) > 0
    ensures var last := Width(n, height) - 1;
      if HasRight(n, height, last) then last + last + 1 == Width(n, height - 1) - 1
        else last + last == Width(n, height - 1) - 1
  {
    WidthPositive(n, height);
    WidthPositive(n, height - 1);
  }

  /** A match below the last node of a level is below the last node of the next. */
  lemma EdgeParent(match_: seq<bool>, height: nat)
    requires |match_| > 0 && height > 0
    ensures Width(|match_|, height) > 0 && Width(|match_|, height - 1) > 0
    ensures ParentOfMatch(match_, height - 1, Width(|match_|, height - 1) - 1) ==>
      ParentOfMatch(match_, height, Width(|match_|, height) - 1)
  {
    EdgeChild(|match_|, height);
    ParentSplit(match_, height, Width(|match_|, height) - 1);
  }

  lemma {:induction false} NoEdgeMatch(match_: seq<bool>, height: nat)
    requires |match_| > 0
    ensures Width(|match_|, height) > 0
    ensures !ParentOfMatch(match_, height, Width(|match_|, height) - 1) ==> EdgeSingles(match_, height) == 0
    decreases height
  {
    WidthPositive(|match_|, height);
    if height > 0 {
      EdgeParent(match_, height);
      NoEdgeMatch(match_, height - 1);
    }
  }

  /** Below the last node of a level, only the last child can have single-child nodes. */
  lemma EdgeStep(match_: seq<bool>, height: nat, last: nat, next: nat)
    requires |match_| > 0 && height > 0 && last + 1 == Width(|match_|, height)
    requires next + 1 == Width(|match_|, height - 1)
    ensures Singles(match_, height, last) ==
      if !ParentOfMatch(match_, height, last) then 0
      else (if HasRight(|match_|, height, last) then 0 else 1) + Singles(match_, height - 1, next)
  {
    EdgeChild(|match_|, height);
    if HasRight(|match_|, height, last) { InnerHasNoSingles(match_, height - 1, last + last); }
  }

  lemma {:induction false} SinglesOnEdge(match_: seq<bool>, height: nat, last: nat)
    requires |match_| > 0 && last + 1 == Width(|match_|, height)
    ensures Singles(match_, height, last) == EdgeSingles(match_, height)
    decreases height
  {
    if height > 0 {
      WidthPositive(|match_|, height - 1);
      var next := Width(|match_|, height - 1) - 1;
      EdgeStep(match_, height, last, next);
      SinglesOnEdge(match_, height - 1, next);
      NoEdgeMatch(match_, height);
    }
  }

  /** The size guarantees of the encoding.  The documented bound of `2N - 1` flag bits for `N`
      hashes holds if and only if no level ends in a matched node with a single child; in general
      one bit more is needed for each such level. */
  lemma EncodedSize(h: Pair, txid: seq<Hash>, match_: seq<bool>)
    requires |match_| == |txid| > 0
    ensures var e := Build(h, txid, match_); var n := |txid|; var edge := EdgeSingles(match_, Height(n));
      && 1 <= |e.hashes| <= n
      && |e.hashes| <= 1 + |Matched(match_, 0, n)| * Height(n)
      && |e.bits| == 2 * |e.hashes| - 1 + edge && edge <= Height(n)
      && (|e.bits| <= 2 * |e.hashes| - 1 <==> edge == 0)
  {
    RootCoversAll(|txid|);
    HashCounted(h, txid, match_, Height(|txid|), 0);
    BitsPerHash(match_, Height(|txid|), 0);
    HashesPerLeaf(match_, Height(|txid|), 0);
    HashesPerMatch(match_, Height(|txid|), 0);
    CapIs(|Matched(match_, 0, |txid|)|, Height(|txid|));
    SinglesOnEdge(match_, Height(|txid|), 0);
  }

  /** Three transactions with the last one matched need four flag bits for two hashes. */
  lemma DocumentedBoundFails(h: Pair, txid: seq<Hash>)
    requires |txid| == 3
    ensures var e := Build(h, txid, [false, false, true]); |e.bits| > 2 * |e.hashes| - 1
  {
    var m := [false, false, true];
    EncodedSize(h, txid, m);
    assert Height(2) == 1 && Height(3) == 2;
    assert Width(3, 1) == 2 && Width(3, 0) == 3;
    assert First(1, 1) == 2 && m[2];
    assert ParentOfMatch(m, 1, 1);
    assert EdgeSingles(m, 1) == 1;
  }

  // ------------------------------------------------------------ byte packing

  /** The byte (or number) with the given bits, least significant first. */
  function FromBits(bits: seq<bool>): nat {
    if bits == [] then 0 else (if bits[0] then 1 else 0) + 2 * FromBits(bits[1..])
  }

  predicate Bit(x: nat, k: nat)
    decreases k
  {
    if k == 0 then x % 2 == 1 else Bit(x / 2, k - 1)
  }

  lemma HalfBits(bits: seq<bool>)
    requires bits != []
    ensures FromBits(bits) / 2 == FromBits(bits[1..]) && (FromBits(bits) % 2 == 1 <==> bits[0])
  {}

  lemma {:induction false} BitFromBits(bits: seq<bool>, k: nat)
    ensures Bit(FromBits(bits), k) <==> k < |bits| && bits[k]
    decreases k
  {
    if bits == [] {
      BitZero(k);
    } else {
      HalfBits(bits);
      if k > 0 { BitFromBits(bits[1..], k - 1); }
    }
  }

  lemma {:induction false} BitZero(k: nat)
    ensures !Bit(0, k)
  {
    if k > 0 { BitZero(k - 1); }
  }

  /** Writing: the flag bits packed per 8 into bytes. */
  function Pack(bits: seq<bool>): seq<nat>
    decreases |bits|
  {
    if bits == [] then []
    else if |bits| <= 8 then [FromBits(bits)]
    else [FromBits(bits[..8])] + Pack(bits[8..])
  }

  /** Reading: eight bits from each byte. */
  function Unpack(bytes: seq<nat>): (r: seq<bool>)
    ensures |r| == 8 * |bytes|
  {
    if bytes == [] then [] else seq(8, k requires 0 <= k < 8 => Bit(bytes[0], k)) + Unpack(bytes[1..])
  }

  /** Packing and unpacking gives back the bits, padded to whole bytes. */
  lemma {:induction false} UnpackPack(bits: seq<bool>)
    ensures bits <= Unpack(Pack(bits))
    ensures |Unpack(Pack(bits))| == 8 * ((|bits| + 7) / 8)
    decreases |bits|
  {
    if bits != [] {
      var head := if |bits| <= 8 then bits else bits[..8];
      var rest := if |bits| <= 8 then [] else bits[8..];
      assert Pack(bits) == [FromBits(head)] + Pack(rest);
      UnpackPack(rest);
      var eight := seq(8, k requires 0 <= k < 8 => Bit(FromBits(head), k));
      forall k | 0 <= k < |head| ensures eight[k] == head[k] { BitFromBits(head, k); }
      assert Pack(bits)[1..] == Pack(rest);
      assert Unpack(Pack(bits)) == eight + Unpack(Pack(rest));
      assert bits == head + rest;
    }
  }

  /** The root of the full tree, the matched indices in order, and their txids. */
  predicate Recovered(h: Pair, txid: seq<Hash>, match_: seq<bool>, r: (Hash, seq<Hash>, seq<nat>))
    requires |match_| == |txid| && Width(|txid|, Height(|txid|)) == 1
  {
    r.0 == CalcHash(h, txid, Height(|txid|), 0) && r.2 == Matched(match_, 0, |txid|) && AllReal(txid, r.1, r.2)
  }

  /** Proof completeness: building, packing to bytes, unpacking and extracting returns the root of
      the full tree and exactly the matched txids and indices in order, or two different pairs of
      the tree itself have the same hash. */
  lemma Completeness(h: Pair, txid: seq<Hash>, match_: seq<bool>)
    requires 0 < |match_| == |txid| <= MAX_TRANSACTIONS && Distinct(txid)
    ensures Width(|txid|, Height(|txid|)) == 1
    ensures var e := Build(h, txid, match_);
      var all := TreePairs(h, txid, Height(|txid|), 0);
      || Recovered(h, txid, match_, ExtractMatches(h, |txid|, Encoding(Unpack(Pack(e.bits)), e.hashes)))
      || Clash(h, all, all)
  {
    RootCoversAll(|txid|);
    var all := TreePairs(h, txid, Height(|txid|), 0);
    if !Clash(h, all, all) {
      var e := Build(h, txid, match_);
      UnpackPack(e.bits);
      RoundUp(|e.bits|);
      EncodedSize(h, txid, match_);
      ExtractWire(h, txid, match_, Unpack(Pack(e.bits)), all);
    }
  }

  lemma RoundUp(n: nat)
    ensures (8 * ((n + 7) / 8) + 7) / 8 == (n + 7) / 8 && n <= 8 * ((n + 7) / 8)
  {}

  /** Extraction does not mind padding up to the next whole byte. */
  lemma ExtractWire(h: Pair, txid: seq<Hash>, match_: seq<bool>, bits: seq<bool>, all: set<Node>)
    requires 0 < |match_| == |txid| <= MAX_TRANSACTIONS && Distinct(txid) && Width(|txid|, Height(|txid|)) == 1
    requires all == TreePairs(h, txid, Height(|txid|), 0) && !Clash(h, all, all)
    requires var e := Build(h, txid, match_);
      e.bits <= bits && (|bits| + 7) / 8 == (|e.bits| + 7) / 8 && |e.hashes| <= |txid| && |e.hashes| <= |bits|
    ensures Recovered(h, txid, match_, ExtractMatches(h, |txid|, Encoding(bits, Build(h, txid, match_).hashes)))
  {
    RootCoversAll(|txid|);
    var wire := Encoding(bits, Build(h, txid, match_).hashes);
    assert wire.bits[0..] == wire.bits && wire.hashes[0..] == wire.hashes;
    TreePairsIn(h, txid, Height(|txid|), 0, all);
    var x := Extract(h, |txid|, wire, Height(|txid|), 0, 0, 0, false);
    DistinctSiblings(h, txid, Height(|txid|), 0, all);
    ExtractBuild(h, txid, match_, Height(|txid|), 0, wire, 0, 0, x);
  }
}
