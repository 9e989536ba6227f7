/** The block assembler: greedy selection of ancestor packages from the mempool.  Transactions are
    named by their index in the pool.  Safety holds for every order in which the mempool may present
    its entries; that the best candidate is tried first needs the order to be by score. */
module Miner {
  import opened Common
  import opened Scores

  const WITNESS_SCALE_FACTOR := 4
  const MAX_BLOCK_SIGOPS_COST := 80000
  const MAX_CONSECUTIVE_FAILURES := 1000
  const COINBASE_WEIGHT := 4000
  const COINBASE_SIGOPS := 400

  /** A mempool entry, with the totals over itself and its ancestors that the mempool caches. */
  datatype Tx = Tx(
    hash: nat, size: nat, weight: nat, sigops: nat, fee: int, modFee: int,
    lockTime: nat, sequences: seq<nat>, hasWitness: bool,
    countWithAncestors: nat, sizeWithAncestors: nat, sigopsWithAncestors: nat, modFeesWithAncestors: int)

  function Size(t: Tx): int { t.size }
  function Weight(t: Tx): int { t.weight }
  function SigOps(t: Tx): int { t.sigops }
  function ModFee(t: Tx): int { t.modFee }
  function Fee(t: Tx): int { t.fee }

  const LOCKTIME_THRESHOLD := 500000000
  const SEQUENCE_FINAL := 0xffff_ffff

  /** The height and time a block is built for, and whether it may hold witnesses. */
  datatype Rules = Rules(height: nat, cutoff: int, includeWitness: bool)

  /** `IsFinalTx`. */
  predicate IsFinal(t: Tx, rules: Rules) {
    || t.lockTime == 0 || t.lockTime < (if t.lockTime < LOCKTIME_THRESHOLD then rules.height else rules.cutoff)
    || forall k :: 0 <= k < |t.sequences| ==> t.sequences[k] == SEQUENCE_FINAL
  }

  predicate Includable(t: Tx, rules: Rules) { IsFinal(t, rules) && (rules.includeWitness || !t.hasWitness) }

  /** `anc[i]` are all in-mempool ancestors of transaction `i`. */
  datatype Pool = Pool(txs: seq<Tx>, anc: seq<set<nat>>, rules: Rules)

  /** The total of `f` over the first `n` transactions that lie in `s`. */
  function Sum(txs: seq<Tx>, n: nat, s: set<nat>, f: Tx -> int): int
    requires n <= |txs|
  {
    if n == 0 then 0 else Sum(txs, n - 1, s, f) + if n - 1 in s then f(txs[n - 1]) else 0
  }

  function Total(p: Pool, s: set<nat>, f: Tx -> int): int { Sum(p.txs, |p.txs|, s, f) }

  function Below(n: nat): (s: set<nat>)
    ensures forall i: nat :: i in s <==> i < n
    ensures |s| == n
  {
    if n == 0 then {} else Below(n - 1) + {n - 1}
  }

  function Ids(p: Pool): set<nat> { Below(|p.txs|) }

  function Package(p: Pool, d: nat): set<nat>
    requires d < |p.anc|
  {
    p.anc[d] + {d}
  }

  predicate IsDag(p: Pool) {
    && |p.anc| == |p.txs|
    && (forall d :: 0 <= d < |p.anc| ==> p.anc[d] <= Ids(p) && d !in p.anc[d])
    && (forall d, a :: 0 <= d < |p.anc| && a in p.anc[d] ==> p.anc[a] <= p.anc[d])
  }

  /** A consistent mempool: a finite DAG whose cached totals are exact, and virtual sizes that are
      positive and cover the weights. */
  predicate Wf(p: Pool) {
    && IsDag(p)
    && (forall d :: 0 <= d < |p.txs| ==>
          && 0 < p.txs[d].size && p.txs[d].weight <= WITNESS_SCALE_FACTOR * p.txs[d].size
          && p.txs[d].countWithAncestors == |Package(p, d)|
          && p.txs[d].sizeWithAncestors == Total(p, Package(p, d), Size)
          && p.txs[d].sigopsWithAncestors == Total(p, Package(p, d), SigOps)
          && p.txs[d].modFeesWithAncestors == Total(p, Package(p, d), ModFee))
  }

  type Mempool = p: Pool | Wf(p) witness Pool([], [], Rules(0, 0, false))

  predicate FeesAgree(p: Pool) { forall d :: 0 <= d < |p.txs| ==> p.txs[d].fee == p.txs[d].modFee }

  // -------------------------------------------------------------------- sums

  lemma {:induction false} SumRemove(txs: seq<Tx>, n: nat, s: set<nat>, i: nat, f: Tx -> int)
    requires n <= |txs| && i < |txs| && i in s
    ensures Sum(txs, n, s, f) == Sum(txs, n, s - {i}, f) + if i < n then f(txs[i]) else 0
  {
    if n > 0 { SumRemove(txs, n - 1, s, i, f); }
  }

  lemma {:induction false} SumMonotone(txs: seq<Tx>, n: nat, s: set<nat>, t: set<nat>, f: Tx -> int)
    requires n <= |txs| && s <= t && forall i :: 0 <= i < |txs| ==> f(txs[i]) >= 0
    ensures 0 <= Sum(txs, n, s, f) <= Sum(txs, n, t, f)
  {
    if n > 0 { SumMonotone(txs, n - 1, s, t, f); }
  }

  lemma {:induction false} WeightBySize(p: Pool, n: nat, s: set<nat>)
    requires Wf(p) && n <= |p.txs|
    ensures Sum(p.txs, n, s, Weight) <= WITNESS_SCALE_FACTOR * Sum(p.txs, n, s, Size)
  {
    if n > 0 { WeightBySize(p, n - 1, s); }
  }

  lemma {:induction false} SumUnion(txs: seq<Tx>, n: nat, s: set<nat>, t: set<nat>, f: Tx -> int)
    requires n <= |txs| && s !! t
    ensures Sum(txs, n, s + t, f) == Sum(txs, n, s, f) + Sum(txs, n, t, f)
  {
    if n > 0 { SumUnion(txs, n - 1, s, t, f); }
  }

  lemma {:induction false} SumEmpty(txs: seq<Tx>, n: nat, f: Tx -> int)
    requires n <= |txs|
    ensures Sum(txs, n, {}, f) == 0
  {
    if n > 0 { SumEmpty(txs, n - 1, f); }
  }

  // --------------------------------------------- the table of modified totals

  /** `CTxMemPoolModifiedEntry`. */
  datatype Mod = Mod(size: int, fees: int, sigops: int)

  type ModMap = map<nat, Mod>

  function Cached(t: Tx): Mod { Mod(t.sizeWithAncestors, t.modFeesWithAncestors, t.sigopsWithAncestors) }

  /** A descendant's entry once ancestor `it` has been included: the first inclusion subtracts the
      modified fee, later ones the plain fee. */
  function Included(p: Pool, mod: ModMap, it: nat, d: nat): Mod
    requires it < |p.txs| && d < |p.txs|
  {
    var t := p.txs[it];
    if d in mod then Mod(mod[d].size - t.size, mod[d].fees - t.fee, mod[d].sigops - t.sigops)
    else
      var c := Cached(p.txs[d]);
      Mod(c.size - t.size, c.fees - t.modFee, c.sigops - t.sigops)
  }

  /** What is left to add for `d` when `s` is already in the block. */
  function Remaining(p: Pool, d: nat, s: set<nat>, f: Tx -> int): int
    requires d < |p.anc|
  {
    Total(p, Package(p, d) - s, f)
  }

  predicate Covers(p: Pool, e: Mod, d: nat, s: set<nat>)
    requires d < |p.anc|
  {
    e.size >= Remaining(p, d, s, Size) && e.sigops >= Remaining(p, d, s, SigOps)
  }

  predicate Exact(p: Pool, e: Mod, d: nat, s: set<nat>)
    requires d < |p.anc|
  {
    && e.size == Remaining(p, d, s, Size) && e.sigops == Remaining(p, d, s, SigOps)
    && (FeesAgree(p) ==> e.fees == Remaining(p, d, s, ModFee))
  }

  /** What the tables say about one transaction outside the block `s`: a recorded total is never
      below the truth, is exact unless the entry failed before, and an entry that is neither
      recorded nor failed has no ancestor in the block. */
  predicate EntryOk(p: Pool, mod: ModMap, failed: set<nat>, d: nat, s: set<nat>)
    requires d < |p.anc|
  {
    && (d in mod ==> Covers(p, mod[d], d, s) && (d !in failed ==> Exact(p, mod[d], d, s)))
    && (d !in mod && d !in failed ==> p.anc[d] !! s)
  }

  /** The entries of everything but `done` are right for a block of `s`. */
  ghost predicate Partial(p: Pool, mod: ModMap, failed: set<nat>, done: set<nat>, s: set<nat>)
    requires |p.anc| == |p.txs|
  {
    && (forall d :: d in mod ==> d < |p.txs| && d !in done)
    && (forall d :: 0 <= d < |p.txs| && d !in done ==> EntryOk(p, mod, failed, d, s))
  }

  ghost predicate TableOk(p: Pool, mod: ModMap, failed: set<nat>, s: set<nat>)
    requires |p.anc| == |p.txs|
  {
    Partial(p, mod, failed, s, s)
  }

  /** While the inclusion of `it` is being recorded, the descendants in `todo` are still to come. */
  ghost predicate Midway(p: Pool, mod: ModMap, failed: set<nat>, done: set<nat>, s: set<nat>, it: nat, todo: set<nat>)
    requires |p.anc| == |p.txs|
  {
    && (forall d :: d in mod ==> d < |p.txs| && d !in done)
    && (forall d :: 0 <= d < |p.txs| && d !in done ==> EntryOk(p, mod, failed, d, if d in todo then s else s + {it}))
  }

  predicate Closed(p: Pool, s: set<nat>) {
    s <= Ids(p) && forall d :: d in s && d < |p.anc| ==> p.anc[d] <= s
  }

  lemma RemainingDrops(p: Pool, d: nat, s: set<nat>, it: nat, f: Tx -> int)
    requires IsDag(p) && d < |p.txs| && it in p.anc[d] && it !in s
    ensures Remaining(p, d, s + {it}, f) == Remaining(p, d, s, f) - f(p.txs[it])
  {
    SumRemove(p.txs, |p.txs|, Package(p, d) - s, it, f);
    assert Package(p, d) - s - {it} == Package(p, d) - (s + {it});
  }

  lemma RemainingBelowCached(p: Pool, d: nat, s: set<nat>, it: nat, f: Tx -> int)
    requires IsDag(p) && d < |p.txs| && it in p.anc[d]
    requires forall i :: 0 <= i < |p.txs| ==> f(p.txs[i]) >= 0
    ensures Remaining(p, d, s + {it}, f) <= Total(p, Package(p, d), f) - f(p.txs[it])
  {
    RemainingDrops(p, d, {}, it, f);
    assert Package(p, d) - {} == Package(p, d);
    SumMonotone(p.txs, |p.txs|, Package(p, d) - (s + {it}), Package(p, d) - ({} + {it}), f);
  }

  /** Recording the inclusion of an ancestor keeps the entry right for the larger block. */
  lemma InclusionKeeps(p: Pool, mod: ModMap, failed: set<nat>, it: nat, d: nat, s: set<nat>)
    requires Wf(p) && d < |p.txs| && d !in s && it in p.anc[d] && it !in s
    requires EntryOk(p, mod, failed, d, s)
    ensures EntryOk(p, mod[d := Included(p, mod, it, d)], failed, d, s + {it})
  {
    var e := Included(p, mod, it, d);
    RemainingDrops(p, d, s, it, Size);
    RemainingDrops(p, d, s, it, SigOps);
    RemainingDrops(p, d, s, it, ModFee);
    if d !in mod {
      RemainingBelowCached(p, d, s, it, Size);
      RemainingBelowCached(p, d, s, it, SigOps);
      if d !in failed { assert Package(p, d) - s == Package(p, d); }
    }
  }

  /** A transaction that does not depend on `it` is not affected by its inclusion. */
  lemma UnrelatedKeeps(p: Pool, mod: ModMap, failed: set<nat>, it: nat, d: nat, s: set<nat>)
    requires IsDag(p) && d < |p.txs| && it !in p.anc[d] && it != d
    requires EntryOk(p, mod, failed, d, s)
    ensures EntryOk(p, mod, failed, d, s + {it})
  {
    assert Package(p, d) - (s + {it}) == Package(p, d) - s;
  }

  /** An entry put back after it had failed is too high by exactly the ancestors that were already
      in the block when it came back. */
  lemma ReinsertedExcess(p: Pool, mod: ModMap, it: nat, d: nat, s: set<nat>)
    requires Wf(p) && d < |p.txs| && d !in s && d !in mod && it in p.anc[d] && it !in s
    ensures Included(p, mod, it, d).size == Remaining(p, d, s + {it}, Size) + Total(p, p.anc[d] * s, Size)
    ensures Included(p, mod, it, d).sigops == Remaining(p, d, s + {it}, SigOps) + Total(p, p.anc[d] * s, SigOps)
  {
    RemainingDrops(p, d, s, it, Size);
    RemainingDrops(p, d, s, it, SigOps);
    assert Package(p, d) - s + p.anc[d] * s == Package(p, d);
    SumUnion(p.txs, |p.txs|, Package(p, d) - s, p.anc[d] * s, Size);
    SumUnion(p.txs, |p.txs|, Package(p, d) - s, p.anc[d] * s, SigOps);
  }

  /** A recorded fee total that was exact stays exact under a further inclusion if and only if the
      included transaction's fee was not modified. */
  lemma FeeDrift(p: Pool, mod: ModMap, it: nat, d: nat, s: set<nat>)
    requires Wf(p) && d < |p.txs| && d in mod && it in p.anc[d] && it !in s
    requires mod[d].fees == Remaining(p, d, s, ModFee)
    ensures Included(p, mod, it, d).fees == Remaining(p, d, s + {it}, ModFee) <==> p.txs[it].fee == p.txs[it].modFee
  {
    RemainingDrops(p, d, s, it, ModFee);
  }

  /** Three transactions, each spending the one before; the middle one's fee may be modified. */
  function ThreeInARow(fee: int, modFee: int): Pool {
    Pool([Plain(0, 100, 10, 10, 1, 100, 10), Plain(1, 100, fee, modFee, 2, 200, 10 + modFee),
          Plain(2, 100, 10, 10, 3, 300, 20 + modFee)],
         [{}, {0}, {0, 1}], Rules(0, 0, false))
  }

  /** A transaction of four signature operations, without lock time or witness. */
  function Plain(hash: nat, size: nat, fee: int, modFee: int, count: nat, sizes: nat, fees: int): Tx {
    Tx(hash, size, 4 * size, 4, fee, modFee, 0, [], false, count, sizes, 4 * count, fees)
  }

  lemma SumOfThree(txs: seq<Tx>, s: set<nat>, f: Tx -> int)
    requires |txs| == 3
    ensures Sum(txs, 3, s, f) ==
      (if 0 in s then f(txs[0]) else 0) + (if 1 in s then f(txs[1]) else 0) + (if 2 in s then f(txs[2]) else 0)
  {
    assert Sum(txs, 1, s, f) == (if 0 in s then f(txs[0]) else 0);
    assert Sum(txs, 2, s, f) == Sum(txs, 1, s, f) + (if 1 in s then f(txs[1]) else 0);
  }

  lemma ThreeTotals(fee: int, modFee: int, p: Pool, d: nat)
    requires p == ThreeInARow(fee, modFee) && d < 3
    ensures p.txs[d].countWithAncestors == |Package(p, d)|
    ensures p.txs[d].sizeWithAncestors == Total(p, Package(p, d), Size)
    ensures p.txs[d].sigopsWithAncestors == Total(p, Package(p, d), SigOps)
    ensures p.txs[d].modFeesWithAncestors == Total(p, Package(p, d), ModFee)
  {
    var s := if d == 0 then {0} else if d == 1 then {0, 1} else {0, 1, 2};
    assert Package(p, d) == s && |s| == d + 1;
    SumOfThree(p.txs, s, Size);
    SumOfThree(p.txs, s, SigOps);
    SumOfThree(p.txs, s, ModFee);
  }

  lemma ThreeDag(fee: int, modFee: int, p: Pool)
    requires p == ThreeInARow(fee, modFee)
    ensures IsDag(p)
  {
    assert forall i: nat :: i in Ids(p) <==> i < 3;
  }

  lemma ThreeWf(fee: int, modFee: int, p: Pool)
    requires p == ThreeInARow(fee, modFee)
    ensures Wf(p)
  {
    ThreeDag(fee, modFee, p);
    forall d | 0 <= d < |p.txs|
      ensures 0 < p.txs[d].size && p.txs[d].weight <= WITNESS_SCALE_FACTOR * p.txs[d].size
      ensures p.txs[d].countWithAncestors == |Package(p, d)|
      ensures p.txs[d].sizeWithAncestors == Total(p, Package(p, d), Size)
      ensures p.txs[d].sigopsWithAncestors == Total(p, Package(p, d), SigOps)
      ensures p.txs[d].modFeesWithAncestors == Total(p, Package(p, d), ModFee)
    {
      ThreeTotals(fee, modFee, p, d);
    }
  }

  /** Include the first two of three in a row, in order: the entry of the last one is right after the
      first and off by the modification of the second's fee after the second. */
  lemma FeeDrifts(fee: int, modFee: int, p: Pool, mod: ModMap)
    requires fee != modFee && p == ThreeInARow(fee, modFee) && mod == map[2 := Included(p, map[], 0, 2)]
    ensures Wf(p) && mod[2].fees == Remaining(p, 2, {0}, ModFee)
    ensures Included(p, mod, 1, 2).fees == Remaining(p, 2, {0, 1}, ModFee) + modFee - fee
  {
    ThreeWf(fee, modFee, p);
    SumOfThree(p.txs, Package(p, 2) - {0}, ModFee);
    SumOfThree(p.txs, Package(p, 2) - {0, 1}, ModFee);
  }

  /** With the first of three in the block, the last is tried, found too big and forgotten; when the
      second goes in, the last is recorded again with the first one's size and signature operations. */
  lemma ExcessReturns(fee: int, p: Pool, mod: ModMap)
    requires p == ThreeInARow(fee, fee) && mod == map[1 := Included(p, map[], 0, 1), 2 := Included(p, map[], 0, 2)]
    ensures Wf(p) && TableOk(p, mod, {}, {0}) && TableOk(p, mod - {2}, {2}, {0})
    ensures var e := Included(p, mod - {2}, 1, 2);
      e.size == Remaining(p, 2, {0, 1}, Size) + 100 && e.sigops == Remaining(p, 2, {0, 1}, SigOps) + 4
  {
    ThreeWf(fee, fee, p);
    forall d | 0 <= d < 3 && d !in {0} ensures EntryOk(p, mod, {}, d, {0}) {
      assert EntryOk(p, map[], {}, d, {});
      InclusionKeeps(p, map[], {}, 0, d, {});
      assert {} + {0} == {0};
    }
    ForgetEntry(p, mod, {}, 2, {0});
    assert {} + {2} == {2};
    ReinsertedExcess(p, mod - {2}, 1, 2, {0});
    assert {0} + {1} == {0, 1} && p.anc[2] * {0} == {0};
    SumOfThree(p.txs, {0}, Size);
    SumOfThree(p.txs, {0}, SigOps);
  }

  // --------------------------------------------------------------- the order

  /** `CompareTxIterByAncestorCount`. */
  predicate Less(p: Pool, a: nat, b: nat)
    requires a < |p.txs| && b < |p.txs|
  {
    if p.txs[a].countWithAncestors != p.txs[b].countWithAncestors
    then p.txs[a].countWithAncestors < p.txs[b].countWithAncestors
    else p.txs[a].hash < p.txs[b].hash
  }

  /** An ancestor always sorts strictly before its descendant. */
  lemma AncestorSortsFirst(p: Pool, a: nat, d: nat)
    requires Wf(p) && d < |p.txs| && a in p.anc[d]
    ensures a < |p.txs| && Less(p, a, d)
  {
    assert a in Package(p, a) && d in Package(p, d);
    SubsetSize(Package(p, a), Package(p, d));
  }

  lemma {:induction false} LeastExists(p: Pool, s: set<nat>) returns (m: nat)
    requires s != {} && s <= Ids(p)
    ensures m in s && forall x :: x in s ==> !Less(p, x, m)
    decreases |s|
  {
    var i :| i in s;
    m := i;
    if s != {i} {
      var k := LeastExists(p, s - {i});
      if Less(p, k, i) { m := k; }
      forall x | x in s ensures !Less(p, x, m) {
        if x != i { assert x in s - {i} && !Less(p, x, k); }
      }
    }
  }

  /** No transaction twice, and each after all its ancestors. */
  ghost predicate BlockOk(p: Pool, block: seq<nat>)
    requires |p.anc| == |p.txs|
  {
    if block == [] then true
    else
      var n := |block| - 1;
      && BlockOk(p, block[..n])
      && block[n] < |p.txs| && block[n] !in block[..n]
      && p.anc[block[n]] <= Elements(block[..n])
  }

  /** `BlockOk` in terms of positions. */
  lemma {:induction false} BlockOkMeans(p: Pool, block: seq<nat>, k: nat)
    requires |p.anc| == |p.txs| && BlockOk(p, block) && k < |block|
    ensures block[k] < |p.txs| && block[k] !in block[..k]
    ensures forall a :: a in p.anc[block[k]] ==> a in block[..k]
  {
    var n := |block| - 1;
    if k < n {
      assert block[..n][..k] == block[..k];
      BlockOkMeans(p, block[..n], k);
    }
  }

  ghost function Elements(s: seq<nat>): set<nat> { set x | x in s }

  /** C++ division truncates towards zero. */
  function DivTrunc(a: int, b: int): int
    requires b > 0
  {
    if a >= 0 then a / b else -((-a) / b)
  }

  /** `CFeeRate::GetFee`. */
  function MinFee(satoshisPerK: int, size: int): int {
    var fee := DivTrunc(satoshisPerK * size, 1000);
    if fee == 0 && size != 0 then (if satoshisPerK > 0 then 1 else if satoshisPerK < 0 then -1 else 0) else fee
  }

  lemma TotalAdd(p: Pool, s: set<nat>, i: nat, f: Tx -> int)
    requires i < |p.txs| && i !in s
    ensures Total(p, s + {i}, f) == Total(p, s, f) + f(p.txs[i])
  {
    SumRemove(p.txs, |p.txs|, s + {i}, i, f);
    assert s + {i} - {i} == s;
  }

  /** The block lists exactly `inBlock`, well ordered, together with all ancestors. */
  ghost predicate Lists(p: Pool, block: seq<nat>, inBlock: set<nat>)
    requires |p.anc| == |p.txs|
  {
    BlockOk(p, block) && Elements(block) == inBlock && Closed(p, inBlock)
  }

  lemma BlockGrows(p: Pool, block: seq<nat>, inBlock: set<nat>, i: nat)
    requires |p.anc| == |p.txs| && Lists(p, block, inBlock) && i < |p.txs| && i !in inBlock && p.anc[i] <= inBlock
    ensures Lists(p, block + [i], inBlock + {i})
  {
    assert (block + [i])[..|block|] == block;
    assert i !in Elements(block);
  }

  /** Distinct transactions, none of which must come before an earlier one, nor `rest` before any. */
  predicate Sorted(p: Pool, sorted: seq<nat>, rest: set<nat>) {
    && rest <= Ids(p)
    && (forall k :: 0 <= k < |sorted| ==> sorted[k] < |p.txs| && sorted[k] !in sorted[..k] && sorted[k] !in rest)
    && (forall j, k :: 0 <= j < k < |sorted| ==> !Less(p, sorted[k], sorted[j]))
    && (forall k, x :: 0 <= k < |sorted| && x in rest ==> !Less(p, x, sorted[k]))
  }

  lemma SortedGrows(p: Pool, sorted: seq<nat>, rest: set<nat>, m: nat)
    requires Sorted(p, sorted, rest) && m in rest && forall x :: x in rest ==> !Less(p, x, m)
    ensures Sorted(p, sorted + [m], rest - {m})
    ensures Elements(sorted + [m]) == Elements(sorted) + {m}
  {
    var t := sorted + [m];
    forall k | 0 <= k < |t| ensures t[k] < |p.txs| && t[k] !in t[..k] && t[k] !in rest - {m} {
      assert t[..k] == sorted[..k];
      if k == |sorted| { assert t[k] == m && sorted[..k] == sorted; } else { assert t[k] == sorted[k]; }
    }
    forall j, k | 0 <= j < k < |t| ensures !Less(p, t[k], t[j]) {
      assert t[j] == sorted[j] && (t[k] == m || t[k] == sorted[k]);
    }
  }

  lemma LessEarlier(p: Pool, sorted: seq<nat>, j: nat, k: nat)
    requires Sorted(p, sorted, {}) && j < |sorted| && k < |sorted| && Less(p, sorted[j], sorted[k])
    ensures j < k
  {}

  /** In a package sorted by ancestor count every ancestor comes earlier. */
  lemma SortedAfterAncestors(p: Pool, sorted: seq<nat>, k: nat, a: nat, before: set<nat>, package: set<nat>)
    requires Wf(p) && k < |sorted| && Elements(sorted) == package && Closed(p, before + package)
    requires Sorted(p, sorted, {}) && a in p.anc[sorted[k]]
    ensures a in before || a in sorted[..k]
  {
    AncestorSortsFirst(p, a, sorted[k]);
    assert sorted[k] in Elements(sorted) && a in before + package;
    if a !in before {
      assert a in Elements(sorted);
      var j :| 0 <= j < |sorted| && sorted[j] == a;
      LessEarlier(p, sorted, j, k);
      assert sorted[..k][j] == a;
    }
  }

  lemma TakeOneMore(sorted: seq<nat>, k: nat, before: set<nat>, block: seq<nat>, mod: ModMap)
    requires k < |sorted|
    ensures block + sorted[..k + 1] == block + sorted[..k] + [sorted[k]]
    ensures before + Elements(sorted[..k + 1]) == before + Elements(sorted[..k]) + {sorted[k]}
    ensures mod - Elements(sorted[..k + 1]) == mod - Elements(sorted[..k]) - {sorted[k]}
  {
    assert sorted[..k + 1] == sorted[..k] + [sorted[k]];
    assert Elements(sorted[..k + 1]) == Elements(sorted[..k]) + {sorted[k]};
  }

  lemma NextOfPackage(p: Pool, sorted: seq<nat>, k: nat, before: set<nat>, package: set<nat>)
    requires Wf(p) && k < |sorted| && Elements(sorted) == package && Closed(p, before + package) && package !! before
    requires Sorted(p, sorted, {})
    ensures sorted[k] < |p.txs| && sorted[k] !in before + Elements(sorted[..k])
    ensures p.anc[sorted[k]] <= before + Elements(sorted[..k])
  {
    assert sorted[k] in Elements(sorted);
    forall a | a in p.anc[sorted[k]] ensures a in before + Elements(sorted[..k]) {
      SortedAfterAncestors(p, sorted, k, a, before, package);
    }
  }

  lemma OneMore(s: set<nat>, added: set<nat>, todo: set<nat>, it: nat)
    requires todo <= added && it in todo && added !! s
    ensures s + (added - (todo - {it})) == s + (added - todo) + {it}
    ensures s + (added - todo) - added == s
    ensures s + (added - todo) + added == s + added
  {}

  ghost function Descendants(p: Pool, it: nat): set<nat> {
    set d | d in Ids(p) && d < |p.anc| && (d == it || it in p.anc[d])
  }

  /** A descendant that is not being added is outside the block altogether. */
  lemma DescendantOutside(p: Pool, s: set<nat>, added: set<nat>, it: nat, d: nat)
    requires |p.anc| == |p.txs| && it in added && Closed(p, s - added) && d in Descendants(p, it) && d !in added
    ensures d !in s + added && it in p.anc[d]
  {
    assert d in s ==> d in s - added;
  }

  lemma MidwayStart(p: Pool, mod: ModMap, failed: set<nat>, done: set<nat>, s: set<nat>, it: nat)
    requires Wf(p) && Partial(p, mod, failed, done, s) && it in done
    ensures Midway(p, mod, failed, done, s, it, Descendants(p, it))
  {
    forall d | 0 <= d < |p.txs| && d !in done && d !in Descendants(p, it) ensures EntryOk(p, mod, failed, d, s + {it}) {
      UnrelatedKeeps(p, mod, failed, it, d, s);
    }
  }

  lemma SameEntryOk(p: Pool, mod: ModMap, mod': ModMap, failed: set<nat>, d: nat, s: set<nat>)
    requires d < |p.anc| && EntryOk(p, mod, failed, d, s) && (d in mod <==> d in mod')
    requires (d in mod ==> mod[d] == mod'[d])
    ensures EntryOk(p, mod', failed, d, s)
  {}

  lemma MidwayStep(
    p: Pool, mod: ModMap, failed: set<nat>, done: set<nat>, s: set<nat>, it: nat, todo: set<nat>, d: nat, mod': ModMap)
    requires Wf(p) && Midway(p, mod, failed, done, s, it, todo) && it in done && it !in s && s <= done
    requires d in todo && todo <= Descendants(p, it) && it < |p.txs|
    requires mod' == if d in done then mod else mod[d := Included(p, mod, it, d)]
    ensures Midway(p, mod', failed, done, s, it, todo - {d})
  {
    if d !in done { InclusionKeeps(p, mod, failed, it, d, s); }
    forall x | 0 <= x < |p.txs| && x !in done && x != d
      ensures EntryOk(p, mod', failed, x, if x in todo - {d} then s else s + {it})
    {
      SameEntryOk(p, mod, mod', failed, x, if x in todo then s else s + {it});
    }
  }

  /** Both sources of a candidate's totals are upper bounds on what adding it will cost. */
  lemma RecordedCovers(p: Pool, mod: ModMap, failed: set<nat>, d: nat, s: set<nat>)
    requires Wf(p) && TableOk(p, mod, failed, s) && d < |p.txs| && d !in s
    ensures Covers(p, Cached(p.txs[d]), d, s) && (d in mod ==> Covers(p, mod[d], d, s))
  {
    assert EntryOk(p, mod, failed, d, s);
    SumMonotone(p.txs, |p.txs|, Package(p, d) - s, Package(p, d), Size);
    SumMonotone(p.txs, |p.txs|, Package(p, d) - s, Package(p, d), SigOps);
  }

  /** Erasing a failed entry while remembering that it failed keeps the table right. */
  lemma ForgetEntry(p: Pool, mod: ModMap, failed: set<nat>, d: nat, s: set<nat>)
    requires Wf(p) && TableOk(p, mod, failed, s) && d in mod
    ensures TableOk(p, mod - {d}, failed + {d}, s)
  {
    forall x | 0 <= x < |p.txs| && x !in s ensures EntryOk(p, mod - {d}, failed + {d}, x, s) {
      assert EntryOk(p, mod, failed, x, s);
    }
  }

  lemma ForgetPackage(p: Pool, mod: ModMap, failed: set<nat>, s: set<nat>, package: set<nat>)
    requires Wf(p) && TableOk(p, mod, failed, s)
    ensures Partial(p, mod - package, failed, s + package, s)
  {
    forall d | 0 <= d < |p.txs| && d !in s + package ensures EntryOk(p, mod - package, failed, d, s) {
      assert EntryOk(p, mod, failed, d, s);
    }
  }

  /** A package whose recorded totals fit really fits. */
  lemma PackageFits(p: Pool, d: nat, s: set<nat>, package: set<nat>, e: Mod)
    requires Wf(p) && d < |p.txs| && d !in s && Closed(p, s)
    requires package == p.anc[d] - s + {d} && Covers(p, e, d, s)
    ensures package !! s && package <= Ids(p) && Closed(p, s + package)
    ensures Total(p, s + package, Weight) <= Total(p, s, Weight) + WITNESS_SCALE_FACTOR * e.size
    ensures Total(p, s + package, SigOps) <= Total(p, s, SigOps) + e.sigops
  {
    assert package == Package(p, d) - s;
    SumUnion(p.txs, |p.txs|, s, package, Weight);
    SumUnion(p.txs, |p.txs|, s, package, SigOps);
    WeightBySize(p, |p.txs|, package);
  }

  ghost predicate AllIncludable(p: Pool, s: set<nat>) { 
    forall i :: i in s && i < |p.txs| ==> Includable(p.txs[i], p.rules)
  }

  lemma IncludableGrows(p: Pool, start: set<nat>, s: set<nat>, t: set<nat>)
    requires AllIncludable(p, s - start) && (t == s || AllIncludable(p, t - s))
    ensures AllIncludable(p, t - start)
  {}

  /** The running counters of a block of `s`. */
  ghost predicate Counted(p: Pool, s: set<nat>, weight: int, sigops: int, fees: int) {
    && weight == COINBASE_WEIGHT + Total(p, s, Weight)
    && sigops == COINBASE_SIGOPS + Total(p, s, SigOps) && fees == Total(p, s, Fee)
  }

  lemma CountedGrows(p: Pool, s: set<nat>, weight: int, sigops: int, fees: int, i: nat)
    requires Counted(p, s, weight, sigops, fees) && i < |p.txs| && i !in s
    ensures Counted(p, s + {i}, weight + p.txs[i].weight, sigops + p.txs[i].sigops, fees + p.txs[i].fee)
  {
    TotalAdd(p, s, i, Weight);
    TotalAdd(p, s, i, SigOps);
    TotalAdd(p, s, i, Fee);
  }

  /** How many transactions of the pool are not in `s`. */
  ghost function Left(p: Pool, s: set<nat>): nat {
    |Ids(p) - s|
  }

  lemma FewerLeft(p: Pool, d: nat, s: set<nat>, t: set<nat>)
    requires d < |p.txs| == |p.anc| && d !in s && t == s + Package(p, d)
    ensures Left(p, t) < Left(p, s)
  {
    assert d in Ids(p) - s && d !in Ids(p) - t;
    SubsetSize(Ids(p) - t, Ids(p) - s);
  }

  datatype Outcome = LowFee | TooBig | NotFinal | Added

  /** Why the selection stopped: nothing left, a candidate that pays too little, or a block nearly full. */
  datatype End = Exhausted | Unpaid(iter: nat, e: Mod) | GivenUp

  /** The block so far and the recorded totals when a candidate was refused. */
  datatype Refusal = Refusal(s: set<nat>, e: Mod)

  /** The package held a transaction that may not go in, or its recorded totals, which are never too
      low, did not fit on what was in the block. */
  ghost predicate ForCause(p: Pool, maxWeight: nat, i: nat, r: Refusal, inBlock: set<nat>) {
    && i < |p.txs| == |p.anc| && i !in r.s && r.s <= inBlock && Covers(p, r.e, i, r.s)
    && (|| !AllIncludable(p, Package(p, i) - r.s)
        || COINBASE_WEIGHT + Total(p, r.s, Weight) + WITNESS_SCALE_FACTOR * r.e.size >= maxWeight
        || COINBASE_SIGOPS + Total(p, r.s, SigOps) + r.e.sigops >= MAX_BLOCK_SIGOPS_COST)
  }

  ghost predicate AllForCause(p: Pool, maxWeight: nat, refused: map<nat, Refusal>, inBlock: set<nat>) {
    forall i :: i in refused ==> ForCause(p, maxWeight, i, refused[i], inBlock)
  }

  ghost predicate InPool(p: Pool, order: seq<nat>) {
    forall k :: 0 <= k < |order| ==> order[k] < |p.txs|
  }

  lemma CauseGrows(p: Pool, maxWeight: nat, refused: map<nat, Refusal>, s: set<nat>, t: set<nat>)
    requires AllForCause(p, maxWeight, refused, s) && s <= t
    ensures AllForCause(p, maxWeight, refused, t)
  {
    forall i | i in refused ensures ForCause(p, maxWeight, i, refused[i], t) {
      assert ForCause(p, maxWeight, i, refused[i], s);
    }
  }

  ghost predicate LowPaid(p: Pool, minFeeRate: int, i: nat, e: Mod, inBlock: set<nat>) {
    && i < |p.txs| == |p.anc| && i !in inBlock && Covers(p, e, i, inBlock) && e.fees < MinFee(minFeeRate, e.size)
  }

  /** The first `mi` transactions offered are in the block, refused, or waiting in the table. */
  ghost predicate Settled(order: seq<nat>, mi: nat, inBlock: set<nat>, refused: map<nat, Refusal>, mod: ModMap) {
    forall k :: 0 <= k < mi && k < |order| ==> order[k] in inBlock || order[k] in refused || order[k] in mod
  }

  lemma SettleOne(
      order: seq<nat>, mi: nat, mi': nat, s: set<nat>, t: set<nat>, refused: map<nat, Refusal>,
      refused': map<nat, Refusal>, mod: ModMap, mod': ModMap, iter: nat)
    requires Settled(order, mi, s, refused, mod) && s <= t && refused.Keys <= refused'.Keys
    requires mod.Keys - t - {iter} <= mod'.Keys && (iter in t || iter in refused')
    requires mi' == mi || (mi < |order| && mi' == mi + 1 && iter == order[mi])
    ensures Settled(order, mi', t, refused', mod')
  {}

  /** What the selection keeps of the candidates seen so far, `s` being in the block. */
  ghost predicate Chosen(
      p: Pool, maxWeight: nat, order: seq<nat>, mi: nat, mod: ModMap, failed: set<nat>, refused: map<nat, Refusal>,
      s: set<nat>)
  {
    && AllForCause(p, maxWeight, refused, s) && failed <= refused.Keys
    && mi <= |order| && Settled(order, mi, s, refused, mod)
  }

  /** How a candidate leaves the list or the table: it is in the block, `t`, or has failed. */
  ghost predicate Moved(
      order: seq<nat>, mi: nat, mi': nat, mod: ModMap, mod': ModMap, failed: set<nat>, failed': set<nat>, t: set<nat>,
      iter: nat)
  {
    && mod.Keys - t - {iter} <= mod'.Keys && failed' <= failed + ({iter} - t)
    && (mi' == mi || (mi < |order| && mi' == mi + 1 && iter == order[mi]))
  }

  lemma ChosenAfter(
      p: Pool, maxWeight: nat, order: seq<nat>, mi: nat, mi': nat, mod: ModMap, mod': ModMap, failed: set<nat>,
      failed': set<nat>, refused: map<nat, Refusal>, refused': map<nat, Refusal>, s: set<nat>, t: set<nat>,
      iter: nat, e: Mod)
    requires Chosen(p, maxWeight, order, mi, mod, failed, refused, s) && s <= t
    requires Moved(order, mi, mi', mod, mod', failed, failed', t, iter)
    requires if iter in t then refused' == refused
             else refused' == refused[iter := Refusal(s, e)] && ForCause(p, maxWeight, iter, Refusal(s, e), t)
    ensures Chosen(p, maxWeight, order, mi', mod', failed', refused', t)
  {
    CauseGrows(p, maxWeight, refused, s, t);
    SettleOne(order, mi, mi', s, t, refused, refused', mod, mod', iter);
  }

  lemma ChosenNext(
      p: Pool, maxWeight: nat, weight: int, sigops: int, fees: int, order: seq<nat>, mi: nat, mi': nat, mod: ModMap,
      mod': ModMap, failed: set<nat>, failed': set<nat>, refused: map<nat, Refusal>, s: set<nat>, t: set<nat>,
      iter: nat, e: Mod)
    returns (refused': map<nat, Refusal>)
    requires Chosen(p, maxWeight, order, mi, mod, failed, refused, s) && Counted(p, s, weight, sigops, fees)
    requires Moved(order, mi, mi', mod, mod', failed, failed', t, iter)
    requires iter < |p.txs| == |p.anc| && iter !in s && Covers(p, e, iter, s)
    requires s <= t && (iter in t <==> s != t)
    requires s != t || !Suits(p, maxWeight, weight, sigops, iter, e, s)
    ensures Chosen(p, maxWeight, order, mi', mod', failed', refused', t)
  {
    refused' := refused;
    if s == t {
      RefusedForCause(p, maxWeight, weight, sigops, fees, iter, e, s);
      refused' := refused[iter := Refusal(s, e)];
    }
    ChosenAfter(p, maxWeight, order, mi, mi', mod, mod', failed, failed', refused, refused', s, t, iter, e);
  }

  /** How many candidates are still to be looked at. */
  ghost function Pending(order: seq<nat>, mi: nat, mod: ModMap): int {
    |order| - mi + |mod.Keys|
  }

  lemma FewerPending(order: seq<nat>, mi: nat, mi': nat, mod: ModMap, mod': ModMap, iter: nat)
    requires mi' <= |order|
    requires (mi' == mi + 1 && mod' == mod) || (mi' == mi && iter in mod && mod'.Keys == mod.Keys - {iter})
    ensures Pending(order, mi', mod') < Pending(order, mi, mod)
  {
    if mi' == mi { SubsetSize(mod'.Keys, mod.Keys); }
  }

  ghost predicate Suits(p: Pool, maxWeight: nat, weight: int, sigops: int, iter: nat, e: Mod, s: set<nat>)
    requires iter < |p.txs| == |p.anc|
  {
    && weight + WITNESS_SCALE_FACTOR * e.size < maxWeight && sigops + e.sigops < MAX_BLOCK_SIGOPS_COST
    && AllIncludable(p, Package(p, iter) - s)
  }

  lemma RefusedForCause(p: Pool, maxWeight: nat, weight: int, sigops: int, fees: int, iter: nat, e: Mod, s: set<nat>)
    requires iter < |p.txs| == |p.anc| && iter !in s && Covers(p, e, iter, s) && Counted(p, s, weight, sigops, fees)
    requires !Suits(p, maxWeight, weight, sigops, iter, e, s)
    ensures ForCause(p, maxWeight, iter, Refusal(s, e), s)
  {}

  lemma SkipOne(
      p: Pool, maxWeight: nat, order: seq<nat>, mi: nat, mod: ModMap, failed: set<nat>, refused: map<nat, Refusal>,
      s: set<nat>)
    requires Chosen(p, maxWeight, order, mi, mod, failed, refused, s) && mi < |order|
    requires order[mi] in mod || order[mi] in s || order[mi] in failed
    ensures Chosen(p, maxWeight, order, mi + 1, mod, failed, refused, s)
    ensures 0 <= Pending(order, mi + 1, mod) < Pending(order, mi, mod)
  {}

  // --------------------------------------------------------- the best candidate

  /** The score of transaction `i` with recorded totals `e`. */
  function ScoreIn(p: Pool, i: nat, e: Mod): Score {
    if i < |p.txs| then ScoreOf(p.txs[i].modFee, p.txs[i].size, e.fees, e.size, p.txs[i].hash) else Score(0, 1, 0)
  }

  function CachedScore(p: Pool, i: nat): Score {
    if i < |p.txs| then ScoreIn(p, i, Cached(p.txs[i])) else Score(0, 1, 0)
  }

  /** The ancestor-score index of the mempool. */
  ghost predicate ByScore(p: Pool, order: seq<nat>) {
    forall j, k :: 0 <= j < k < |order| ==> !Higher(CachedScore(p, order[k]), CachedScore(p, order[j]))
  }

  /** No entry of the table scores higher than `best`, */
  ghost predicate AboveTable(p: Pool, mod: ModMap, best: Score) {
    forall d :: d in mod ==> !Higher(ScoreIn(p, d, mod[d]), best)
  }

  /** nor anything still to come in the mempool's order. */
  ghost predicate AboveRest(p: Pool, order: seq<nat>, mi: nat, best: Score) {
    forall k :: mi <= k < |order| ==> !Higher(CachedScore(p, order[k]), best)
  }

  ghost predicate Positive(p: Pool, mod: ModMap) { forall d :: d in mod ==> d < |p.txs| && mod[d].size > 0 }

  lemma TablePositive(p: Pool, mod: ModMap, failed: set<nat>, s: set<nat>)
    requires Wf(p) && TableOk(p, mod, failed, s)
    ensures Positive(p, mod)
  {
    forall d | d in mod ensures mod[d].size > 0 { CoversPositive(p, mod[d], d, s); }
  }

  lemma CoversPositive(p: Pool, e: Mod, d: nat, s: set<nat>)
    requires Wf(p) && d < |p.txs| && d !in s && Covers(p, e, d, s)
    ensures e.size > 0
  {
    SumRemove(p.txs, |p.txs|, Package(p, d) - s, d, Size);
    SumMonotone(p.txs, |p.txs|, {}, Package(p, d) - s - {d}, Size);
  }

  lemma ScorePositive(p: Pool, i: nat, e: Mod)
    requires Wf(p) && e.size > 0
    ensures ScoreIn(p, i, e).size > 0
  {}

  lemma CachedPositive(p: Pool, i: nat)
    requires Wf(p)
    ensures CachedScore(p, i).size > 0
  {
    if i < |p.txs| {
      SumRemove(p.txs, |p.txs|, Package(p, i), i, Size);
      SumMonotone(p.txs, |p.txs|, {}, Package(p, i) - {i}, Size);
    }
  }

  lemma BestOfTable(p: Pool, mod: ModMap) returns (m: nat)
    requires Wf(p) && Positive(p, mod) && mod.Keys != {}
    ensures m in mod && AboveTable(p, mod, ScoreIn(p, m, mod[m]))
  {
    var scores := map d | d in mod :: ScoreIn(p, d, mod[d]);
    assert scores.Keys == mod.Keys;
    forall d | d in scores ensures scores[d].size > 0 { ScorePositive(p, d, mod[d]); }
    m := BestExists(scores);
    forall d | d in mod ensures !Higher(ScoreIn(p, d, mod[d]), ScoreIn(p, m, mod[m])) {
      assert scores[d] == ScoreIn(p, d, mod[d]) && scores[m] == ScoreIn(p, m, mod[m]);
    }
  }

  /** The best of the table, when it beats the next of the mempool, */
  lemma TableWins(p: Pool, order: seq<nat>, mi: nat, m: nat, e: Mod)
    requires Wf(p) && ByScore(p, order) && mi < |order| && e.size > 0
    requires Higher(ScoreIn(p, m, e), CachedScore(p, order[mi]))
    ensures AboveRest(p, order, mi, ScoreIn(p, m, e))
  {
    var best, next := ScoreIn(p, m, e), CachedScore(p, order[mi]);
    Asymmetric(best, next);
    ScorePositive(p, m, e);
    CachedPositive(p, order[mi]);
    forall k | mi <= k < |order| ensures !Higher(CachedScore(p, order[k]), best) {
      CachedPositive(p, order[k]);
      if k > mi { NotHigher(CachedScore(p, order[k]), next, best); }
    }
  }

  /** and the next of the mempool otherwise, is above all that is left. */
  lemma ListWins(p: Pool, order: seq<nat>, mi: nat, mod: ModMap, m: nat)
    requires Wf(p) && Positive(p, mod) && ByScore(p, order) && mi < |order|
    requires mod.Keys != {} ==> m in mod && AboveTable(p, mod, ScoreIn(p, m, mod[m]))
    requires mod.Keys != {} ==> !Higher(ScoreIn(p, m, mod[m]), CachedScore(p, order[mi]))
    ensures AboveTable(p, mod, CachedScore(p, order[mi])) && AboveRest(p, order, mi, CachedScore(p, order[mi]))
  {
    var next := CachedScore(p, order[mi]);
    CachedPositive(p, order[mi]);
    forall d | d in mod ensures !Higher(ScoreIn(p, d, mod[d]), next) {
      ScorePositive(p, d, mod[d]);
      ScorePositive(p, m, mod[m]);
      NotHigher(ScoreIn(p, d, mod[d]), ScoreIn(p, m, mod[m]), next);
    }
  }

  /** What the candidate chosen is among those left. */
  ghost predicate Best(p: Pool, order: seq<nat>, mi: nat, mod: ModMap, i: nat, e: Mod) {
    ByScore(p, order) ==> AboveTable(p, mod, ScoreIn(p, i, e)) && AboveRest(p, order, mi, ScoreIn(p, i, e))
  }

  /** Of everything offered, nothing that is neither in the block nor refused scores higher. */
  ghost predicate NoneBetter(
      p: Pool, order: seq<nat>, s: set<nat>, refused: map<nat, Refusal>, mod: ModMap, i: nat, e: Mod)
  {
    forall k :: 0 <= k < |order| && order[k] < |p.txs| ==>
      || order[k] in s || order[k] in refused
      || !Higher(ScoreIn(p, order[k], if order[k] in mod then mod[order[k]] else Cached(p.txs[order[k]])),
                 ScoreIn(p, i, e))
  }

  lemma BestMeans(
      p: Pool, order: seq<nat>, mi: nat, mod: ModMap, s: set<nat>, refused: map<nat, Refusal>, i: nat, e: Mod)
    requires Settled(order, mi, s, refused, mod) && Best(p, order, mi, mod, i, e) && ByScore(p, order)
    ensures NoneBetter(p, order, s, refused, mod, i, e)
  {}

  /** Larger sets of failed entries claim less. */
  lemma TableWeakens(p: Pool, mod: ModMap, failed: set<nat>, more: set<nat>, s: set<nat>)
    requires |p.anc| == |p.txs| && TableOk(p, mod, failed, s) && failed <= more
    ensures TableOk(p, mod, more, s)
  {
    forall d | 0 <= d < |p.txs| && d !in s ensures EntryOk(p, mod, more, d, s) {
      assert EntryOk(p, mod, failed, d, s);
    }
  }

  // ------------------------------------------------ stopping at the first that pays too little

  /** Too little for the minimum fee is less than the minimum rate. */
  lemma TooLittle(rate: nat, size: nat, fees: int)
    requires size > 0 && fees < MinFee(rate, size)
    ensures BelowRate(fees, size, rate)
  {}

  /** When the best candidate `i` pays too little, the package of every other transaction that by itself
      pays the minimum rate is below that rate as well. */
  lemma StoppedRightly(p: Pool, rate: nat, i: nat, e: Mod, d: nat, x: Mod)
    requires Wf(p) && i < |p.txs| && d < |p.txs| && e.size > 0 && x.size > 0 && e.fees < MinFee(rate, e.size)
    requires !Higher(ScoreIn(p, d, x), ScoreIn(p, i, e)) && !BelowRate(p.txs[d].modFee, p.txs[d].size, rate)
    ensures BelowRate(x.fees, x.size, rate)
  {
    var t, u := p.txs[d], p.txs[i];
    TooLittle(rate, e.size, e.fees);
    ScoreBelowRate(u.modFee, u.size, e.fees, e.size, u.hash, rate);
    RateCarries(ScoreIn(p, d, x), ScoreIn(p, i, e), rate);
  }

  /** Exactly then: a package that pays the rate can be left behind, by a stop at some candidate that
      scores no lower, if and only if its transaction by itself does not pay the rate. */
  lemma LeftBehind(rate: nat, fee: int, size: nat, x: Mod, hash: nat)
    requires size > 0 && x.size > 0 && !BelowRate(x.fees, x.size, rate)
    ensures BelowRate(fee, size, rate) <==>
      exists b :: StopsAt(rate, b) && !Higher(ScoreOf(fee, size, x.fees, x.size, hash), b)
  {
    var a := ScoreOf(fee, size, x.fees, x.size, hash);
    if BelowRate(fee, size, rate) {
      assert fee * x.size <= x.fees * size by { OwnIsLower(fee, size, x.fees, x.size, rate); }
      var b := Score(1000 * fee, 1000 * size, 0);
      assert rate * (1000 * size) == 1000 * (rate * size);
      assert StopsAt(rate, b) && !Higher(a, b);
    }
    if b :| StopsAt(rate, b) && !Higher(a, b) {
      TooLittle(rate, b.size, b.fee);
      RateCarries(a, b, rate);
    }
  }

  lemma OwnIsLower(fee: int, size: int, packageFee: int, packageSize: int, rate: int)
    requires size > 0 && packageSize > 0 && BelowRate(fee, size, rate) && !BelowRate(packageFee, packageSize, rate)
    ensures fee * packageSize <= packageFee * size
  {
    assert fee * 1000 < size * rate && rate * packageSize <= 1000 * packageFee;
    CrossMultiply(fee, size, rate, 1000, packageFee, packageSize);
  }

  /** The selection stops at a candidate of this fee and size. */
  predicate StopsAt(rate: nat, b: Score) { b.size > 0 && b.fee < MinFee(rate, b.size) }

  /** Two well-paying transactions that spend the same large free one, and a free one that spends both. */
  function SharedParent(): Pool {
    Pool([Plain(0, 1000, 0, 0, 1, 1000, 0), Plain(1, 100, 800, 800, 2, 1100, 800),
          Plain(2, 100, 800, 800, 2, 1100, 800), Plain(3, 100, 0, 0, 4, 1300, 1600)],
         [{}, {0}, {0}, {0, 1, 2}], Rules(0, 0, false))
  }

  lemma SumOfFour(txs: seq<Tx>, s: set<nat>, f: Tx -> int)
    requires |txs| == 4
    ensures Sum(txs, 4, s, f) == (if 0 in s then f(txs[0]) else 0) + (if 1 in s then f(txs[1]) else 0) +
      (if 2 in s then f(txs[2]) else 0) + (if 3 in s then f(txs[3]) else 0)
  {
    assert Sum(txs, 1, s, f) == (if 0 in s then f(txs[0]) else 0);
    assert Sum(txs, 2, s, f) == Sum(txs, 1, s, f) + (if 1 in s then f(txs[1]) else 0);
    assert Sum(txs, 3, s, f) == Sum(txs, 2, s, f) + (if 2 in s then f(txs[2]) else 0);
  }

  lemma SharedTotals(p: Pool, d: nat)
    requires p == SharedParent() && d < 4
    ensures p.txs[d].countWithAncestors == |Package(p, d)|
    ensures p.txs[d].sizeWithAncestors == Total(p, Package(p, d), Size)
    ensures p.txs[d].sigopsWithAncestors == Total(p, Package(p, d), SigOps)
    ensures p.txs[d].modFeesWithAncestors == Total(p, Package(p, d), ModFee)
  {
    var s := if d == 0 then {0} else if d == 1 then {0, 1} else if d == 2 then {0, 2} else {0, 1, 2, 3};
    assert Package(p, d) == s;
    SumOfFour(p.txs, s, Size);
    SumOfFour(p.txs, s, SigOps);
    SumOfFour(p.txs, s, ModFee);
  }

  lemma SharedDag(p: Pool)
    requires p == SharedParent()
    ensures IsDag(p)
  {
    assert forall i: nat :: i in Ids(p) <==> i < 4;
  }

  lemma SharedWf(p: Pool)
    requires p == SharedParent()
    ensures Wf(p)
  {
    SharedDag(p);
    forall d | 0 <= d < |p.txs|
      ensures 0 < p.txs[d].size && p.txs[d].weight <= WITNESS_SCALE_FACTOR * p.txs[d].size
      ensures p.txs[d].countWithAncestors == |Package(p, d)|
      ensures p.txs[d].sizeWithAncestors == Total(p, Package(p, d), Size)
      ensures p.txs[d].sigopsWithAncestors == Total(p, Package(p, d), SigOps)
      ensures p.txs[d].modFeesWithAncestors == Total(p, Package(p, d), ModFee)
    {
      SharedTotals(p, d);
    }
  }

  lemma SharedScores(p: Pool)
    requires p == SharedParent()
    ensures CachedScore(p, 0) == Score(0, 1000, 0) && CachedScore(p, 1) == Score(800, 1100, 1)
    ensures CachedScore(p, 2) == Score(800, 1100, 2) && CachedScore(p, 3) == Score(0, 100, 3)
  {}

  lemma FourByScore(p: Pool, order: seq<nat>)
    requires order == [1, 2, 0, 3]
    requires CachedScore(p, 0) == Score(0, 1000, 0) && CachedScore(p, 1) == Score(800, 1100, 1)
    requires CachedScore(p, 2) == Score(800, 1100, 2) && CachedScore(p, 3) == Score(0, 100, 3)
    ensures ByScore(p, order) && AboveRest(p, order, 0, CachedScore(p, 1))
  {}

  lemma FirstPaysTooLittle(p: Pool)
    requires Wf(p) && p == SharedParent()
    ensures LowPaid(p, 1000, 1, Cached(p.txs[1]), {})
  {
    assert Package(p, 1) - {} == Package(p, 1);
  }

  /** A package that pays the minimum fee may be left when the selection stops: the best candidate pays
      too little, but the last one's package, whose score is its own low rate, pays enough. */
  lemma PayingPackageLeft(p: Pool, order: seq<nat>)
    requires p == SharedParent() && order == [1, 2, 0, 3]
    ensures Wf(p) && ByScore(p, order) && AboveRest(p, order, 0, CachedScore(p, 1))
    ensures LowPaid(p, 1000, 1, Cached(p.txs[1]), {})
    ensures var e := Cached(p.txs[3]); e.fees >= MinFee(1000, e.size) && !Higher(CachedScore(p, 3), CachedScore(p, 1))
  {
    SharedWf(p);
    SharedScores(p);
    FourByScore(p, order);
    FirstPaysTooLittle(p);
  }

  lemma AddedPart(p: Pool, d: nat, s: set<nat>, t: set<nat>)
    requires d < |p.txs| == |p.anc| && t == s + Package(p, d) && AllIncludable(p, Package(p, d) - s)
    ensures AllIncludable(p, t - s)
  {
    assert t - s == Package(p, d) - s;
  }

  class BlockAssembler {
    const pool: Mempool
    const nBlockMaxWeight: nat
    const blockMinFeeRate: int
    var block: seq<nat>
    var inBlock: set<nat>
    var nBlockWeight: int
    var nBlockSigOpsCost: int
    var nBlockTx: nat
    var nFees: int

    /** The counters are the coinbase reserve plus the totals of the block, which is well ordered. */
    ghost predicate Valid()
      reads this
    {
      && nBlockMaxWeight >= COINBASE_WEIGHT
      && Lists(pool, block, inBlock)
      && nBlockTx == |block| && Counted(pool, inBlock, nBlockWeight, nBlockSigOpsCost, nFees)
    }

    ghost predicate WithinLimits()
      reads this
    {
      nBlockWeight <= nBlockMaxWeight && nBlockSigOpsCost < MAX_BLOCK_SIGOPS_COST
    }

    /** The constructor clamps the weight limit; `resetBlock` reserves room for the coinbase. */
    constructor (pool: Mempool, maxWeight: nat, minFeeRate: int)
      ensures Valid() && WithinLimits() && block == [] && this.pool == pool
      ensures COINBASE_WEIGHT <= nBlockMaxWeight <= 4000000 - 4000
    {
      this.pool := pool;
      nBlockMaxWeight := if maxWeight > 4000000 - 4000 then 4000000 - 4000 else if maxWeight < 4000 then 4000
        else maxWeight;
      blockMinFeeRate := minFeeRate;
      block, inBlock, nBlockTx, nFees := [], {}, 0, 0;
      nBlockWeight, nBlockSigOpsCost := COINBASE_WEIGHT, COINBASE_SIGOPS;
      SumEmpty(pool.txs, |pool.txs|, Weight);
      SumEmpty(pool.txs, |pool.txs|, SigOps);
      SumEmpty(pool.txs, |pool.txs|, Fee);
    }

    /** `onlyUnconfirmed`. */
    method OnlyUnconfirmed(testSet: set<nat>) returns (r: set<nat>)
      ensures r == testSet - inBlock
    {
      r := testSet;
      var todo := testSet;
      while todo != {}
        invariant todo <= r <= testSet
        invariant r == testSet - (inBlock * (testSet - todo))
        decreases todo
      {
        var i :| i in todo;
        if i in inBlock { r := r - {i}; }
        todo := todo - {i};
      }
    }

    predicate TestPackage(packageSize: int, packageSigOpsCost: int)
      reads this
    {
      && nBlockWeight + WITNESS_SCALE_FACTOR * packageSize < nBlockMaxWeight
      && nBlockSigOpsCost + packageSigOpsCost < MAX_BLOCK_SIGOPS_COST
    }

    method TestPackageTransactions(package: set<nat>) returns (ok: bool)
      requires package <= Ids(pool)
      ensures ok <==> forall i :: i in package ==> Includable(pool.txs[i], pool.rules)
    {
      var todo := package;
      while todo != {}
        invariant todo <= package && forall i :: i in package && i !in todo ==> Includable(pool.txs[i], pool.rules)
        decreases todo
      {
        var i :| i in todo;
        if !Includable(pool.txs[i], pool.rules) { return false; }
        todo := todo - {i};
      }
      ok := true;
    }

    /** `SortForBlock`: the package in order of ancestor count. */
    method SortForBlock(package: set<nat>) returns (sorted: seq<nat>)
      requires package <= Ids(pool)
      ensures Elements(sorted) == package && Sorted(pool, sorted, {})
    {
      sorted := [];
      var rest := package;
      while rest != {}
        invariant rest <= package && Elements(sorted) == package - rest
        invariant Sorted(pool, sorted, rest)
        decreases rest
      {
        ghost var least := LeastExists(pool, rest);
        var m :| m in rest && forall x :: x in rest ==> !Less(pool, x, m);
        SortedGrows(pool, sorted, rest, m);
        sorted := sorted + [m];
        rest := rest - {m};
      }
    }

    /** `AddToBlock`. */
    method AddToBlock(i: nat)
      requires Valid() && i < |pool.txs| && i !in inBlock && pool.anc[i] <= inBlock
      modifies this
      ensures Valid() && block == old(block) + [i] && inBlock == old(inBlock) + {i}
    {
      CountedGrows(pool, inBlock, nBlockWeight, nBlockSigOpsCost, nFees, i);
      BlockGrows(pool, block, inBlock, i);
      block := block + [i];
      nBlockWeight := nBlockWeight + pool.txs[i].weight;
      nBlockTx := nBlockTx + 1;
      nBlockSigOpsCost := nBlockSigOpsCost + pool.txs[i].sigops;
      nFees := nFees + pool.txs[i].fee;
      inBlock := inBlock + {i};
    }

    /** The loop that puts a sorted package into the block and forgets its modified totals. */
    method AddSorted(package: set<nat>, sorted: seq<nat>, mod: ModMap) returns (mod': ModMap)
      requires Valid() && package !! inBlock && Closed(pool, inBlock + package)
      requires Elements(sorted) == package && Sorted(pool, sorted, {})
      modifies this
      ensures Valid() && block == old(block) + sorted && inBlock == old(inBlock) + package
      ensures mod' == mod - package
    {
      mod' := mod;
      for k := 0 to |sorted|
        invariant Valid() && block == old(block) + sorted[..k]
        invariant inBlock == old(inBlock) + Elements(sorted[..k])
        invariant mod' == mod - Elements(sorted[..k])
      {
        var i := sorted[k];
        NextOfPackage(pool, sorted, k, old(inBlock), package);
        TakeOneMore(sorted, k, old(inBlock), old(block), mod);
        AddToBlock(i);
        mod' := mod' - {i};
      }
      assert sorted[..|sorted|] == sorted;
    }

    /** The inner loop of `UpdatePackagesForAdded`: record the inclusion of `it` for every
        descendant that is not itself being added. */
    method IncludeAncestor(it: nat, added: set<nat>, mod: ModMap, ghost failed: set<nat>, ghost s: set<nat>)
      returns (mod': ModMap, updated: nat)
      requires it < |pool.txs| && it in added && it !in s && Closed(pool, s - added)
      requires Partial(pool, mod, failed, s + added, s)
      ensures Partial(pool, mod', failed, s + added, s + {it}) && mod.Keys <= mod'.Keys
    {
      mod', updated := mod, 0;
      var todo := set d | d in Ids(pool) && (d == it || it in pool.anc[d]);
      assert todo == Descendants(pool, it);
      MidwayStart(pool, mod', failed, s + added, s, it);
      while todo != {}
        invariant todo <= Descendants(pool, it) && Midway(pool, mod', failed, s + added, s, it, todo)
        invariant mod.Keys <= mod'.Keys
        decreases todo
      {
        var d :| d in todo;
        ghost var before := mod';
        if d !in added {
          DescendantOutside(pool, s, added, it, d);
          updated := updated + 1;
          mod' := mod'[d := Included(pool, mod', it, d)];
        }
        MidwayStep(pool, before, failed, s + added, s, it, todo, d, mod');
        todo := todo - {d};
      }
    }

    /** `UpdatePackagesForAdded`: afterwards the table is right for the block with `added` in it. */
    method UpdatePackagesForAdded(added: set<nat>, mod: ModMap, ghost failed: set<nat>, ghost s: set<nat>)
      returns (mod': ModMap, updated: nat)
      requires added <= Ids(pool) && added !! s && Closed(pool, s)
      requires Partial(pool, mod, failed, s + added, s)
      ensures TableOk(pool, mod', failed, s + added) && mod.Keys <= mod'.Keys
    {
      mod', updated := mod, 0;
      var todo := added;
      assert s + (added - todo) == s;
      while todo != {}
        invariant todo <= added && Partial(pool, mod', failed, s + added, s + (added - todo)) && mod.Keys <= mod'.Keys
        decreases todo
      {
        var it :| it in todo;
        var n;
        OneMore(s, added, todo, it);
        mod', n := IncludeAncestor(it, added, mod', failed, s + (added - todo));
        updated := updated + n;
        todo := todo - {it};
      }
      assert s + (added - {}) == s + added;
    }

    /** A checked package goes into the block in order, and the table follows. */
    method AddPackage(package: set<nat>, mod: ModMap, ghost failed: set<nat>) returns (mod': ModMap)
      requires Valid() && TableOk(pool, mod, failed, inBlock)
      requires package !! inBlock && package <= Ids(pool) && Closed(pool, inBlock + package)
      modifies this
      ensures Valid() && TableOk(pool, mod', failed, inBlock)
      ensures old(block) <= block && inBlock == old(inBlock) + package && mod.Keys - package <= mod'.Keys
    {
      ghost var before := inBlock;
      var sorted := SortForBlock(package);
      ForgetPackage(pool, mod, failed, before, package);
      mod' := AddSorted(package, sorted, mod);
      var n;
      mod', n := UpdatePackagesForAdded(package, mod', failed, before);
    }

    /** The part of `addPackageTxs` for a candidate that passed `TestPackage`: collect its missing
        ancestors, check them, add them in order and update the table of modified totals. */
    method TryPackage(iter: nat, e: Mod, mod: ModMap, ghost failed: set<nat>) returns (mod': ModMap, added: bool)
      requires Valid() && TableOk(pool, mod, failed, inBlock)
      requires iter < |pool.txs| && iter !in inBlock && Covers(pool, e, iter, inBlock) && TestPackage(e.size, e.sigops)
      modifies this
      ensures !added ==> unchanged(this) && mod' == mod
      ensures added ==> Valid() && WithinLimits() && TableOk(pool, mod', failed, inBlock)
      ensures added ==> old(block) <= block && inBlock == old(inBlock) + Package(pool, iter)
      ensures added ==> mod.Keys - Package(pool, iter) <= mod'.Keys
      ensures added <==> AllIncludable(pool, Package(pool, iter) - old(inBlock))
    {
      var package := OnlyUnconfirmed(pool.anc[iter]);
      package := package + {iter};
      PackageFits(pool, iter, inBlock, package, e);
      assert package == Package(pool, iter) - inBlock;
      added := TestPackageTransactions(package);
      if !added { return mod, false; }
      mod' := AddPackage(package, mod, failed);
    }

    /** The next candidate: the one at `mi`, or the best of the table of modified totals. */
    method Choose(order: seq<nat>, mi: nat, mod: ModMap) returns (iter: nat, useModified: bool, e: Mod)
      requires mi <= |order| && (mi < |order| || mod.Keys != {}) && InPool(pool, order) && Positive(pool, mod)
      ensures if useModified then iter in mod && e == mod[iter]
              else mi < |order| && iter == order[mi] && iter < |pool.txs| && e == Cached(pool.txs[iter])
      ensures Best(pool, order, mi, mod, iter, e)
    {
      var m := 0;
      if mod.Keys != {} {
        ghost var best := BestOfTable(pool, mod);
        m :| m in mod && forall d :: d in mod ==> !Higher(ScoreIn(pool, d, mod[d]), ScoreIn(pool, m, mod[m]));
      }
      if mi == |order| || (mod.Keys != {} && Higher(ScoreIn(pool, m, mod[m]), CachedScore(pool, order[mi]))) {
        iter, useModified, e := m, true, mod[m];
        if mi < |order| && ByScore(pool, order) { TableWins(pool, order, mi, m, e); }
      } else {
        iter, useModified := order[mi], false;
        e := Cached(pool.txs[iter]);
        if ByScore(pool, order) { ListWins(pool, order, mi, mod, m); }
      }
    }

    /** One candidate with recorded totals `e`: these are tested, then its transactions. */
    method Consider(iter: nat, e: Mod, mod: ModMap, failed: set<nat>) returns (mod': ModMap, r: Outcome)
      requires Valid() && WithinLimits() && TableOk(pool, mod, failed, inBlock)
      requires iter < |pool.txs| && iter !in inBlock && Covers(pool, e, iter, inBlock)
      modifies this
      ensures r == LowFee <==> e.fees < MinFee(blockMinFeeRate, e.size)
      ensures r == Added <==>
                r != LowFee && old(Suits(pool, nBlockMaxWeight, nBlockWeight, nBlockSigOpsCost, iter, e, inBlock))
      ensures r == TooBig <==> r != LowFee && !old(TestPackage(e.size, e.sigops))
      ensures Valid() && WithinLimits() && TableOk(pool, mod', failed, inBlock)
      ensures r == Added ==> inBlock == old(inBlock) + Package(pool, iter) && mod.Keys - inBlock <= mod'.Keys
      ensures r == Added ==> old(block) <= block && AllIncludable(pool, inBlock - old(inBlock))
      ensures r == Added ==> Left(pool, inBlock) < Left(pool, old(inBlock))
      ensures r != Added ==> unchanged(this) && mod' == mod
    {
      mod', r := mod, LowFee;
      if e.fees >= MinFee(blockMinFeeRate, e.size) {
        r := TooBig;
        if TestPackage(e.size, e.sigops) {
          ghost var before := inBlock;
          var added;
          mod', added := TryPackage(iter, e, mod, failed);
          r := NotFinal;
          if added {
            AddedPart(pool, iter, before, inBlock);
            FewerLeft(pool, iter, before, inBlock);
            r := Added;
          }
        }
      }
    }

    /** What holds between candidates. */
    ghost predicate Selecting(order: seq<nat>, mi: nat, mod: ModMap, failed: set<nat>, refused: map<nat, Refusal>)
      reads this
    {
      && Valid() && WithinLimits() && TableOk(pool, mod, failed, inBlock)
      && Chosen(pool, nBlockMaxWeight, order, mi, mod, failed, refused, inBlock)
    }

    /** A failed entry of the table is erased and remembered. */
    method Forget(iter: nat, mod: ModMap, failed: set<nat>) returns (mod': ModMap, failed': set<nat>)
      requires |pool.anc| == |pool.txs| && TableOk(pool, mod, failed, inBlock) && iter in mod
      ensures TableOk(pool, mod', failed', inBlock)
      ensures mod' == mod - {iter} && failed' == failed + {iter} && mod'.Keys == mod.Keys - {iter}
    {
      ForgetEntry(pool, mod, failed, iter, inBlock);
      mod', failed' := mod - {iter}, failed + {iter};
    }

    /** Picks the next candidate and settles it. */
    method Step(order: seq<nat>, mi: nat, mod: ModMap, failed: set<nat>)
      returns (mi': nat, mod': ModMap, failed': set<nat>, r: Outcome, iter: nat, e: Mod)
      requires Valid() && WithinLimits() && TableOk(pool, mod, failed, inBlock) && InPool(pool, order)
      requires mi <= |order| && (mi < |order| || mod.Keys != {})
      requires mi < |order| ==> order[mi] !in mod && order[mi] !in inBlock
      modifies this
      ensures Valid() && WithinLimits() && TableOk(pool, mod', failed', inBlock)
      ensures iter < |pool.txs| && iter !in old(inBlock) && Covers(pool, e, iter, old(inBlock))
      ensures Best(pool, order, mi, mod, iter, e)
      ensures r == LowFee <==> e.fees < MinFee(blockMinFeeRate, e.size)
      ensures r == Added <==>
                r != LowFee && old(Suits(pool, nBlockMaxWeight, nBlockWeight, nBlockSigOpsCost, iter, e, inBlock))
      ensures r == TooBig <==> r != LowFee && !old(TestPackage(e.size, e.sigops))
      ensures r == Added ==> inBlock == old(inBlock) + Package(pool, iter)
      ensures r == Added ==> Left(pool, inBlock) < Left(pool, old(inBlock))
      ensures r == Added ==> old(block) <= block && AllIncludable(pool, inBlock - old(inBlock))
      ensures r != Added ==> unchanged(this)
      ensures if r == LowFee then mi' == mi && mod' == mod && failed' == failed
              else Moved(order, mi, mi', mod, mod', failed, failed', inBlock, iter)
      ensures r == TooBig || r == NotFinal ==> Pending(order, mi', mod') < Pending(order, mi, mod)
    {
      var useModified;
      TablePositive(pool, mod, failed, inBlock);
      iter, useModified, e := Choose(order, mi, mod);
      RecordedCovers(pool, mod, failed, iter, inBlock);
      mod', r := Consider(iter, e, mod, failed);
      mi', failed' := mi, failed;
      if r == LowFee { return; }
      if !useModified { mi' := mi + 1; }
      if r != Added {
        if useModified { mod', failed' := Forget(iter, mod, failed); }
        FewerPending(order, mi, mi', mod, mod', iter);
      }
    }

    /** The same, with what is known of the candidates so far. */
    method Next(
        order: seq<nat>, mi: nat, mod: ModMap, failed: set<nat>, ghost refused: map<nat, Refusal>,
        ghost start: set<nat>)
      returns (mi': nat, mod': ModMap, failed': set<nat>, r: Outcome, iter: nat, e: Mod,
               ghost refused': map<nat, Refusal>)
      requires Selecting(order, mi, mod, failed, refused) && InPool(pool, order)
      requires mi < |order| || mod.Keys != {}
      requires mi < |order| ==> order[mi] !in mod && order[mi] !in inBlock
      requires AllIncludable(pool, inBlock - start)
      modifies this
      ensures Selecting(order, mi', mod', failed', refused')
      ensures old(block) <= block && AllIncludable(pool, inBlock - start)
      ensures r == Added ==> Left(pool, inBlock) < Left(pool, old(inBlock))
      ensures r != Added ==> unchanged(this)
      ensures r == LowFee ==> LowPaid(pool, blockMinFeeRate, iter, e, inBlock)
      ensures r == LowFee ==> mi' == mi && mod' == mod && Best(pool, order, mi, mod, iter, e)
      ensures r == TooBig || r == NotFinal ==> Pending(order, mi', mod') < Pending(order, mi, mod)
    {
      ghost var s, weight, sigops, fees := inBlock, nBlockWeight, nBlockSigOpsCost, nFees;
      mi', mod', failed', r, iter, e := Step(order, mi, mod, failed);
      refused' := refused;
      IncludableGrows(pool, start, s, inBlock);
      if r != LowFee {
        refused' := ChosenNext(
          pool, nBlockMaxWeight, weight, sigops, fees, order, mi, mi', mod, mod', failed, failed', refused, s, inBlock,
          iter, e);
      }
    }

    method Skip(order: seq<nat>, mi: nat, mod: ModMap, failed: set<nat>, ghost refused: map<nat, Refusal>)
      returns (mi': nat)
      requires Selecting(order, mi, mod, failed, refused) && mi < |order|
      requires order[mi] in mod || order[mi] in inBlock || order[mi] in failed
      ensures Selecting(order, mi', mod, failed, refused) && 0 <= Pending(order, mi', mod) < Pending(order, mi, mod)
    {
      SkipOne(pool, nBlockMaxWeight, order, mi, mod, failed, refused, inBlock);
      mi' := mi + 1;
    }

    /** What is left when the best candidate pays too little. */
    ghost method Leave(
        order: seq<nat>, mi: nat, mod: ModMap, failed: set<nat>, refused: map<nat, Refusal>, iter: nat, e: Mod)
      returns (left: ModMap)
      requires Selecting(order, mi, mod, failed, refused) && Best(pool, order, mi, mod, iter, e)
      ensures TableOk(pool, left, refused.Keys, inBlock)
      ensures ByScore(pool, order) ==> NoneBetter(pool, order, inBlock, refused, left, iter, e)
    {
      left := mod;
      TableWeakens(pool, mod, failed, refused.Keys, inBlock);
      if ByScore(pool, order) { BestMeans(pool, order, mi, mod, inBlock, refused, iter, e); }
    }

    /** The loop of `addPackageTxs`. */
    method Select(order: seq<nat>, table: ModMap)
      returns (packages: nat, ended: End, ghost refused: map<nat, Refusal>, ghost left: ModMap)
      requires Valid() && WithinLimits() && InPool(pool, order) && TableOk(pool, table, {}, inBlock)
      modifies this
      ensures Valid() && WithinLimits()
      ensures old(block) <= block && AllIncludable(pool, inBlock - old(inBlock))
      ensures AllForCause(pool, nBlockMaxWeight, refused, inBlock)
      ensures ended == Exhausted ==> Settled(order, |order|, inBlock, refused, map[])
      ensures ended == GivenUp ==> nBlockWeight > nBlockMaxWeight - 4000
      ensures TableOk(pool, left, refused.Keys, inBlock)
      ensures ended.Unpaid? ==> LowPaid(pool, blockMinFeeRate, ended.iter, ended.e, inBlock)
      ensures ended.Unpaid? && ByScore(pool, order) ==>
                NoneBetter(pool, order, inBlock, refused, left, ended.iter, ended.e)
    {
      packages, refused := 0, map[];
      ghost var start := inBlock;
      var mod, failed: set<nat> := table, {};
      var mi: nat, nConsecutiveFailed := 0, 0;
      while mi < |order| || mod.Keys != {}
        invariant Selecting(order, mi, mod, failed, refused)
        invariant old(block) <= block && AllIncludable(pool, inBlock - start)
        decreases Left(pool, inBlock), Pending(order, mi, mod)
      {
        if mi < |order| && (order[mi] in mod || order[mi] in inBlock || order[mi] in failed) {
          mi := Skip(order, mi, mod, failed, refused);
          continue;
        }
        var r, iter, e;
        mi, mod, failed, r, iter, e, refused := Next(order, mi, mod, failed, refused, start);
        if r == LowFee {
          left := Leave(order, mi, mod, failed, refused, iter, e);
          return packages, Unpaid(iter, e), refused, left;
        }
        if r == Added {
          nConsecutiveFailed := 0;
          packages := packages + 1;
        } else if r == TooBig {
          nConsecutiveFailed := nConsecutiveFailed + 1;
          if nConsecutiveFailed > MAX_CONSECUTIVE_FAILURES && nBlockWeight > nBlockMaxWeight - 4000 {
            TableWeakens(pool, mod, failed, refused.Keys, inBlock);
            return packages, GivenUp, refused, mod;
          }
        }
      }
      assert mod == map[];
      TableWeakens(pool, mod, failed, refused.Keys, inBlock);
      ended, left := Exhausted, mod;
    }

    /** `addPackageTxs`, with `order` the mempool in ancestor-score order.  Whatever the scores, the
        loop ends, the block stays within its limits and every transaction follows its ancestors;
        and unless it ends early, every transaction offered is in the block or was refused for cause. */
    method AddPackageTxs(order: seq<nat>)
      returns (packages: nat, ended: End, ghost refused: map<nat, Refusal>, ghost left: ModMap)
      requires Valid() && WithinLimits() && InPool(pool, order)
      modifies this
      ensures Valid() && WithinLimits()
      ensures old(block) <= block && AllIncludable(pool, inBlock - old(inBlock))
      ensures AllForCause(pool, nBlockMaxWeight, refused, inBlock)
      ensures ended == Exhausted ==> Settled(order, |order|, inBlock, refused, map[])
      ensures ended == GivenUp ==> nBlockWeight > nBlockMaxWeight - 4000
      ensures TableOk(pool, left, refused.Keys, inBlock)
      ensures ended.Unpaid? ==> LowPaid(pool, blockMinFeeRate, ended.iter, ended.e, inBlock)
      ensures ended.Unpaid? && ByScore(pool, order) ==>
                NoneBetter(pool, order, inBlock, refused, left, ended.iter, ended.e)
    {
      var mod: ModMap, n := UpdatePackagesForAdded(inBlock, map[], {}, {});
      assert {} + inBlock == inBlock;
      packages, ended, refused, left := Select(order, mod);
    }
  }
}
