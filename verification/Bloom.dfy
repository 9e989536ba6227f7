/** The rolling Bloom filter: two bits per position name the generation that last marked it, and a
    generation number is wiped just before it is used again.  The filter is proved to be exactly a
    plain Bloom filter over the keys of the last two to three generations. */
module Bloom {
  import opened Numbers

  type Key = seq<bv8>

  /** A filter position: a pair of words and a bit in each. */
  datatype Cell = Cell(word: nat, bit: nat)

  /** `hash` is the keyed hash with the current tweak; `words` is half the size of the data vector. */
  datatype Config = Config(funcs: nat, words: nat, perGeneration: nat, hash: (nat, Key) -> uint32)

  predicate Wf(cfg: Config) { cfg.words > 0 && cfg.perGeneration > 0 }

  /** The sizing used by the source for a filter that must remember `nElements` keys. */
  function EntriesPerGeneration(nElements: nat): nat { (nElements + 1) / 2 }

  /** The position of the n-th hash of a key; the lowest bit of the scaled hash is dropped. */
  function CellOf(cfg: Config, n: nat, key: Key): (c: Cell)
    requires Wf(cfg)
    ensures c.word < cfg.words && c.bit < 64
  {
    var h := cfg.hash(n, key);
    Cell(FastMod(h, 2 * cfg.words) / 2, h as nat % 64)
  }

  predicate Hits(cfg: Config, key: Key, c: Cell)
    requires Wf(cfg)
  {
    exists n: nat :: n < cfg.funcs && CellOf(cfg, n, key) == c
  }

  // ------------------------------------------------------ tags per position

  /** Tag 0 is unset; 1, 2 and 3 name a generation. */
  datatype Filter = Filter(tags: Cell -> nat, entries: nat, generation: nat)

  function Empty(): Filter { Filter(c => 0, 0, 1) }

  function NextTag(g: nat): nat { if g + 1 == 4 then 1 else g + 1 }

  ghost function Roll(cfg: Config, f: Filter): Filter {
    if f.entries != cfg.perGeneration then f
    else
      var g := NextTag(f.generation);
      Filter(c => if f.tags(c) == g then 0 else f.tags(c), 0, g)
  }

  ghost function Inserted(cfg: Config, f: Filter, key: Key): Filter
    requires Wf(cfg)
  {
    var r := Roll(cfg, f);
    Filter(c => if Hits(cfg, key, c) then r.generation else r.tags(c), r.entries + 1, r.generation)
  }

  ghost predicate Holds(cfg: Config, f: Filter, key: Key)
    requires Wf(cfg)
  {
    forall n: nat :: n < cfg.funcs ==> f.tags(CellOf(cfg, n, key)) != 0
  }

  /** The filter after inserting `keys` in order since the last reset. */
  ghost function Run(cfg: Config, keys: seq<Key>): Filter
    requires Wf(cfg)
    decreases |keys|
  {
    if keys == [] then Empty() else Inserted(cfg, Run(cfg, keys[..|keys| - 1]), keys[|keys| - 1])
  }

  // ------------------------------------------------------------ generations

  /** Absolute generation number after `m` insertions, and how many of them fall in it. */
  function Generation(e: nat, m: nat): nat
    decreases m
  {
    if m == 0 then 0 else if Entries(e, m - 1) == e then Generation(e, m - 1) + 1 else Generation(e, m - 1)
  }

  function Entries(e: nat, m: nat): nat
    decreases m
  {
    if m == 0 then 0 else if Entries(e, m - 1) == e then 1 else Entries(e, m - 1) + 1
  }

  function TagOfGeneration(g: nat): nat { 1 + g % 3 }

  lemma {:induction false} Clock(e: nat, m: nat)
    requires e > 0
    ensures Entries(e, m) <= e && (m > 0 ==> Entries(e, m) >= 1)
    ensures m == Generation(e, m) * e + Entries(e, m)
    decreases m
  {
    if m > 0 {
      Clock(e, m - 1);
      var g := Generation(e, m - 1);
      assert (g + 1) * e == g * e + e;
    }
  }

  lemma {:induction false} ClockMonotone(e: nat, i: nat, m: nat)
    requires i <= m
    ensures Generation(e, i) <= Generation(e, m)
    decreases m
  {
    if i < m { ClockMonotone(e, i, m - 1); }
  }

  lemma NextTagIs(g: nat)
    ensures NextTag(TagOfGeneration(g)) == TagOfGeneration(g + 1)
  {
    if g % 3 == 2 { RemainderIs(g + 1, 3, g / 3 + 1, 0); } else { RemainderIs(g + 1, 3, g / 3, g % 3 + 1); }
  }

  lemma {:induction false} RunClock(cfg: Config, keys: seq<Key>)
    requires Wf(cfg)
    ensures var f := Run(cfg, keys); var e := cfg.perGeneration;
      f.entries == Entries(e, |keys|) && f.generation == TagOfGeneration(Generation(e, |keys|))
    decreases |keys|
  {
    if keys != [] {
      RunClock(cfg, keys[..|keys| - 1]);
      NextTagIs(Generation(cfg.perGeneration, |keys| - 1));
    }
  }

  // -------------------------------------------------------- what a tag means

  /** The generation that last marked a position, or -1. */
  function LastMark(cfg: Config, keys: seq<Key>, c: Cell): (g: int)
    requires Wf(cfg)
    ensures -1 <= g
    decreases |keys|
  {
    if keys == [] then -1
    else if Hits(cfg, keys[|keys| - 1], c) then Generation(cfg.perGeneration, |keys|)
    else LastMark(cfg, keys[..|keys| - 1], c)
  }

  lemma {:induction false} LastMarkBound(cfg: Config, keys: seq<Key>, c: Cell)
    requires Wf(cfg)
    ensures LastMark(cfg, keys, c) <= Generation(cfg.perGeneration, |keys|)
    decreases |keys|
  {
    if keys != [] { LastMarkBound(cfg, keys[..|keys| - 1], c); }
  }

  function TagFor(mark: int, now: nat): nat { if mark < 0 || mark + 2 < now then 0 else TagOfGeneration(mark) }

  /** Starting a generation wipes exactly the marks of the one three before it. */
  lemma Wiped(mark: int, now: nat)
    requires -1 <= mark <= now
    ensures TagFor(mark, now + 1) == if TagFor(mark, now) == TagOfGeneration(now + 1) then 0 else TagFor(mark, now)
  {
    if mark >= 0 && mark + 2 >= now {
      assert mark == now || mark == now - 1 || mark == now - 2;
    }
  }

  /** Rolling keeps every tag in step with the generation that follows. */
  lemma RollTags(cfg: Config, f: Filter, c: Cell, mark: int, now: nat)
    requires -1 <= mark <= now && f.generation == TagOfGeneration(now) && f.tags(c) == TagFor(mark, now)
    ensures var r := Roll(cfg, f); var then_ := if f.entries == cfg.perGeneration then now + 1 else now;
      r.generation == TagOfGeneration(then_) && r.tags(c) == TagFor(mark, then_)
  {
    Wiped(mark, now);
  }

  /** The tag of a position names the generation that last marked it, unless that is too long ago. */
  lemma {:induction false} RunTags(cfg: Config, keys: seq<Key>, c: Cell)
    requires Wf(cfg)
    ensures Run(cfg, keys).tags(c) == TagFor(LastMark(cfg, keys, c), Generation(cfg.perGeneration, |keys|))
    decreases |keys|
  {
    if keys != [] {
      var was, key := keys[..|keys| - 1], keys[|keys| - 1];
      RunTags(cfg, was, c);
      RunClock(cfg, was);
      LastMarkBound(cfg, was, c);
      RollTags(cfg, Run(cfg, was), c, LastMark(cfg, was, c), Generation(cfg.perGeneration, |was|));
    }
  }

  /** The keys that count: all of the current generation and of the two before it. */
  predicate Recent(cfg: Config, keys: seq<Key>, i: int) {
    0 <= i < |keys| && |keys| - i <= 2 * cfg.perGeneration + Entries(cfg.perGeneration, |keys|)
  }

  ghost predicate HitRecently(cfg: Config, keys: seq<Key>, c: Cell)
    requires Wf(cfg)
  {
    exists i :: Recent(cfg, keys, i) && Hits(cfg, keys[i], c)
  }

  lemma RecentGeneration(cfg: Config, keys: seq<Key>, i: nat)
    requires Wf(cfg) && i < |keys|
    ensures Recent(cfg, keys, i) <==> Generation(cfg.perGeneration, i + 1) + 2 >= Generation(cfg.perGeneration, |keys|)
  {
    var e := cfg.perGeneration;
    Clock(e, i + 1);
    Clock(e, |keys|);
    Distance(Generation(e, i + 1), Entries(e, i + 1), Generation(e, |keys|), Entries(e, |keys|), e);
  }

  /** Insertion `a * e + x` lies in a generation at most two before that of `b * e + y`. */
  lemma Distance(a: nat, x: nat, b: nat, y: nat, e: nat)
    requires 1 <= x <= e && y <= e
    ensures (b * e + y) - (a * e + x) < 2 * e + y <==> a + 2 >= b
  {
    var d: int := b - a;
    assert b * e - a * e == d * e;
    if d <= 2 { Multiples(d, 2, e); } else { Multiples(3, d, e); }
  }

  lemma Multiples(x: int, y: int, e: nat)
    requires x <= y
    ensures x * e <= y * e
  {}

  lemma {:induction false} LastMarkMeans(cfg: Config, keys: seq<Key>, c: Cell, now: nat)
    requires Wf(cfg)
    ensures 0 <= LastMark(cfg, keys, c) && LastMark(cfg, keys, c) + 2 >= now <==>
            exists i :: 0 <= i < |keys| && Hits(cfg, keys[i], c) && Generation(cfg.perGeneration, i + 1) + 2 >= now
    decreases |keys|
  {
    if keys != [] {
      var was, last := keys[..|keys| - 1], |keys| - 1;
      LastMarkMeans(cfg, was, c, now);
      forall i | 0 <= i < |keys| &&
        Hits(cfg, keys[i], c) ensures Generation(cfg.perGeneration, i + 1) <= Generation(cfg.perGeneration, |keys|) {
        ClockMonotone(cfg.perGeneration, i + 1, |keys|);
      }
      if Hits(cfg, keys[last], c) {
        assert Generation(cfg.perGeneration, last + 1) == LastMark(cfg, keys, c);
      } else {
        assert forall i: nat :: i < last ==> was[i] == keys[i];
      }
    }
  }

  /** A position is set if and only if one of the recent keys hits it. */
  lemma SetMeans(cfg: Config, keys: seq<Key>, c: Cell)
    requires Wf(cfg)
    ensures Run(cfg, keys).tags(c) != 0 <==> HitRecently(cfg, keys, c)
  {
    var now := Generation(cfg.perGeneration, |keys|);
    RunTags(cfg, keys, c);
    LastMarkMeans(cfg, keys, c, now);
    forall i: nat | i < |keys|
      ensures Recent(cfg, keys, i) <==> Generation(cfg.perGeneration, i + 1) + 2 >= now
    {
      RecentGeneration(cfg, keys, i);
    }
  }

  /** The filter answers exactly like a plain Bloom filter holding the recent keys and no others. */
  lemma ExactWindow(cfg: Config, keys: seq<Key>, key: Key)
    requires Wf(cfg)
    ensures Holds(cfg, Run(cfg, keys), key) <==>
            forall n: nat :: n < cfg.funcs ==> HitRecently(cfg, keys, CellOf(cfg, n, key))
  {
    forall n: nat | n < cfg.funcs
      ensures Run(cfg, keys).tags(CellOf(cfg, n, key)) != 0 <==> HitRecently(cfg, keys, CellOf(cfg, n, key))
    {
      SetMeans(cfg, keys, CellOf(cfg, n, key));
    }
  }

  /** After any insertion history, each of the last `nElements` keys (rounded up to an even number,
      plus the whole current generation) is found. */
  lemma RecentFound(cfg: Config, nElements: nat, keys: seq<Key>, i: nat)
    requires Wf(cfg) && cfg.perGeneration == EntriesPerGeneration(nElements)
    requires i < |keys| && |keys| - i <= 2 * cfg.perGeneration + Entries(cfg.perGeneration, |keys|)
    ensures nElements <= 2 * cfg.perGeneration
    ensures Holds(cfg, Run(cfg, keys), keys[i])
  {
    ExactWindow(cfg, keys, keys[i]);
    assert Recent(cfg, keys, i);
  }

  // ------------------------------------------------------- bit-sliced words

  /** A 64-bit word, least significant bit first, with the bitwise operators. */
  type Word = s: seq<bool> | |s| == 64 witness seq(64, _ => false)

  function And(a: Word, b: Word): Word { seq(64, i requires 0 <= i < 64 => a[i] && b[i]) }
  function Or(a: Word, b: Word): Word { seq(64, i requires 0 <= i < 64 => a[i] || b[i]) }
  function Xor(a: Word, b: Word): Word { seq(64, i requires 0 <= i < 64 => a[i] != b[i]) }
  function Not(a: Word): Word { seq(64, i requires 0 <= i < 64 => !a[i]) }

  /** A bit shifted into place, and a bit spread over the word by subtracting it from 0. */
  function Shifted(v: bool, bit: nat): Word { seq(64, i => v && i == bit) }
  function Spread(v: bool): Word { seq(64, _ => v) }

  /** The two bits of a position, read as a tag. */
  function TagIn(p1: Word, p2: Word, bit: nat): nat
    requires bit < 64
  {
    (if p1[bit] then 1 else 0) + (if p2[bit] then 2 else 0)
  }

  predicate LowBit(g: nat) { g % 2 == 1 }
  predicate HighBit(g: nat) { g / 2 == 1 }

  /** Storing one bit of a word, as insertion does. */
  function StoreBit(w: Word, bit: nat, v: bool): Word { Or(And(w, Not(Shifted(true, bit))), Shifted(v, bit)) }

  /** Storing both bits of a generation writes its tag and disturbs no other position. */
  lemma TagWritten(p1: Word, p2: Word, bit: nat, g: nat, b: nat)
    requires 1 <= g <= 3 && bit < 64 && b < 64
    ensures TagIn(StoreBit(p1, bit, LowBit(g)), StoreBit(p2, bit, HighBit(g)), b) == if b == bit then g
      else TagIn(p1, p2, b)
  {}

  /** The bits of the generation compared with the stored bits, all positions at once. */
  function WipeMask(p1: Word, p2: Word, g: nat): Word { Or(Xor(p1, Spread(LowBit(g))), Xor(p2, Spread(HighBit(g)))) }

  /** The mask clears exactly the positions carrying the tag. */
  lemma TagWiped(p1: Word, p2: Word, g: nat, b: nat)
    requires 1 <= g <= 3 && b < 64
    ensures var mask := WipeMask(p1, p2, g);
      TagIn(And(p1, mask), And(p2, mask), b) == if TagIn(p1, p2, b) == g then 0 else TagIn(p1, p2, b)
  {}

  // --------------------------------------------------------------- the object

  /** `f` as words: the tag of every position, and the two counters. */
  ghost predicate Represents(cfg: Config, data: seq<Word>, entries: nat, generation: nat, f: Filter) {
    && |data| == 2 * cfg.words && entries == f.entries && generation == f.generation
    && forall c: Cell :: c.word < cfg.words && c.bit < 64 ==> TagAt(data, c) == f.tags(c)
  }

  function TagAt(data: seq<Word>, c: Cell): nat {
    if 2 * c.word + 1 < |data| && c.bit < 64 then TagIn(data[2 * c.word], data[2 * c.word + 1], c.bit) else 0
  }

  lemma RunAppend(cfg: Config, keys: seq<Key>, key: Key)
    requires Wf(cfg)
    ensures Run(cfg, keys + [key]) == Inserted(cfg, Run(cfg, keys), key)
  {
    assert (keys + [key])[..|keys|] == keys;
  }

  class RollingBloomFilter {
    var cfg: Config
    var data: seq<Word>
    var nEntriesThisGeneration: nat
    var nGeneration: nat
    ghost var keys: seq<Key>  // inserted since the last reset

    ghost predicate Valid()
      reads this
    {
      Wf(cfg) && Represents(cfg, data, nEntriesThisGeneration, nGeneration, Run(cfg, keys))
    }

    constructor (cfg: Config)
      requires Wf(cfg)
      ensures Valid() && this.cfg == cfg && keys == []
    {
      this.cfg := cfg;
      data := seq(2 * cfg.words, _ => Spread(false));
      nEntriesThisGeneration, nGeneration := 0, 1;
      keys := [];
    }

    /** Forgets everything and hashes with a fresh tweak from now on. */
    method Reset(hash: (nat, Key) -> uint32)
      requires Wf(cfg)
      modifies this
      ensures Valid() && keys == [] && cfg == old(cfg).(hash := hash)
    {
      cfg := cfg.(hash := hash);
      nEntriesThisGeneration, nGeneration := 0, 1;
      data := seq(2 * cfg.words, _ => Spread(false));
      keys := [];
    }

    /** Wipes the old entries that carry tag `g`, two words at a time. */
    method Wipe(g: nat)
      requires |data| % 2 == 0 && 1 <= g <= 3
      modifies this`data
      ensures |data| == |old(data)|
      ensures forall c: Cell :: c.bit < 64 ==> TagAt(data, c) == if TagAt(old(data), c) == g then 0
        else TagAt(old(data), c)
    {
      var p := 0;
      while p < |data|
        invariant p <= |data| == |old(data)| && p % 2 == 0
        invariant forall c: Cell :: c.bit < 64 ==>
          TagAt(data, c) == if 2 * c.word < p && TagAt(old(data), c) == g then 0 else TagAt(old(data), c)
      {
        var p1, p2 := data[p], data[p + 1];
        var mask := WipeMask(p1, p2, g);
        ghost var was := data;
        data := data[p := And(p1, mask)][p + 1 := And(p2, mask)];
        forall c: Cell | c.bit < 64
          ensures TagAt(data, c) == if 2 * c.word == p && TagAt(was, c) == g then 0 else TagAt(was, c)
        {
          TagWiped(p1, p2, g, c.bit);
        }
        p := p + 2;
      }
    }

    /** Marks one position with the current generation. */
    method Mark(c: Cell)
      requires |data| == 2 * cfg.words && c.word < cfg.words && c.bit < 64 && 1 <= nGeneration <= 3
      modifies this`data
      ensures |data| == |old(data)|
      ensures forall b: Cell :: b.bit < 64 ==> TagAt(data, b) == if b == c then nGeneration else TagAt(old(data), b)
    {
      var p := 2 * c.word;
      ghost var p1, p2 := data[p], data[p + 1];
      data := data[p := StoreBit(data[p], c.bit, LowBit(nGeneration))];
      data := data[p + 1 := StoreBit(data[p + 1], c.bit, HighBit(nGeneration))];
      forall b: Cell | b.bit < 64 ensures TagAt(data, b) == if b == c then nGeneration else TagAt(old(data), b) {
        TagWritten(p1, p2, c.bit, nGeneration, b.bit);
      }
    }

    method MarkAll(key: Key)
      requires Wf(cfg) && |data| == 2 * cfg.words && 1 <= nGeneration <= 3
      modifies this`data
      ensures |data| == |old(data)|
      ensures forall c: Cell :: c.bit < 64 ==> TagAt(data, c) == if Hits(cfg, key, c) then nGeneration
        else TagAt(old(data), c)
    {
      var n := 0;
      while n < cfg.funcs
        invariant n <= cfg.funcs && |data| == 2 * cfg.words
        invariant forall c: Cell :: c.bit < 64 ==>
          TagAt(data, c) == if HitsBefore(cfg, key, c, n) then nGeneration else TagAt(old(data), c)
      {
        Mark(CellOf(cfg, n, key));
        n := n + 1;
      }
    }

    /** Starts the next generation when the current one is full. */
    method Advance(ghost f: Filter)
      requires Wf(cfg) && Represents(cfg, data, nEntriesThisGeneration, nGeneration, f) && 1 <= nGeneration <= 3
      modifies this`data, this`nEntriesThisGeneration, this`nGeneration
      ensures Represents(cfg, data, nEntriesThisGeneration, nGeneration, Roll(cfg, f)) && 1 <= nGeneration <= 3
    {
      if nEntriesThisGeneration == cfg.perGeneration {
        nEntriesThisGeneration := 0;
        nGeneration := nGeneration + 1;
        if nGeneration == 4 { nGeneration := 1; }
        Wipe(nGeneration);
      }
    }

    method Insert(key: Key)
      requires Valid()
      modifies this
      ensures Valid() && keys == old(keys) + [key] && cfg == old(cfg)
    {
      ghost var f := Run(cfg, keys);
      RunClock(cfg, keys);
      RunAppend(cfg, keys, key);
      Advance(f);
      nEntriesThisGeneration := nEntriesThisGeneration + 1;
      MarkAll(key);
      keys := keys + [key];
    }

    /** Answers exactly like a plain Bloom filter over the recent keys. */
    method Contains(key: Key) returns (found: bool)
      requires Valid()
      ensures found <==> Holds(cfg, Run(cfg, keys), key)
      ensures found <==> forall n: nat :: n < cfg.funcs ==> HitRecently(cfg, keys, CellOf(cfg, n, key))
    {
      ExactWindow(cfg, keys, key);
      var n := 0;
      while n < cfg.funcs
        invariant n <= cfg.funcs
        invariant forall k: nat :: k < n ==> Run(cfg, keys).tags(CellOf(cfg, k, key)) != 0
      {
        var c := CellOf(cfg, n, key);
        assert TagAt(data, c) == Run(cfg, keys).tags(c);
        if !Or(data[2 * c.word], data[2 * c.word + 1])[c.bit] { return false; }
        n := n + 1;
      }
      found := true;
    }
  }

  predicate HitsBefore(cfg: Config, key: Key, c: Cell, limit: nat)
    requires Wf(cfg)
  {
    exists n: nat :: n < limit && CellOf(cfg, n, key) == c
  }
}
