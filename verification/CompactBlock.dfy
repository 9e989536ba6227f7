/** Compact block reconstruction (BIP 152): a block is rebuilt from prefilled transactions, from those
    found in the mempool by short id, and from the ones then asked for. */
module CompactBlock {
  import opened Common

  type Tx = nat  // a transaction, identified by its witness hash
  const MAX_INDEX := 0xffff

  type Slots = seq<Option<Tx>>

  // -------------------------------------------------- differential index coding

  predicate Increasing(xs: seq<nat>) { forall i, j :: 0 <= i < j < |xs| ==> xs[i] < xs[j] }

  predicate Indexes(xs: seq<nat>) { Increasing(xs) && forall i :: 0 <= i < |xs| ==> xs[i] <= MAX_INDEX }

  /** The same, index by index, starting at `next` or later. */
  predicate Ascends(next: nat, xs: seq<nat>)
    decreases |xs|
  {
    xs != [] ==> next <= xs[0] <= MAX_INDEX && Ascends(xs[0] + 1, xs[1..])
  }

  lemma {:induction false} AscendsMeans(next: nat, xs: seq<nat>)
    ensures Ascends(next, xs) <==> Indexes(xs) && (xs != [] ==> next <= xs[0])
    decreases |xs|
  {
    if xs != [] {
      AscendsMeans(xs[0] + 1, xs[1..]);
      if Ascends(next, xs) {
        forall i, j | 0 <= i < j < |xs| ensures xs[i] < xs[j] {
          assert xs[j] == xs[1..][j - 1] && (j > 1 ==> xs[1..][0] < xs[1..][j - 1]) &&
            (i > 0 ==> xs[i] == xs[1..][i - 1]);
        }
        forall i | 0 <= i < |xs| ensures xs[i] <= MAX_INDEX { assert i > 0 ==> xs[i] == xs[1..][i - 1]; }
      }
    }
  }

  /** Written: each index less the one before it, less one; `next` is one past the last index. */
  function Differences(next: nat, xs: seq<nat>): seq<nat>
    requires Ascends(next, xs)
    decreases |xs|
  {
    if xs == [] then [] else [xs[0] - next] + Differences(xs[0] + 1, xs[1..])
  }

  /** Read: summed up again; refused if an index exceeds 16 bits. */
  function Restore(offset: nat, wire: seq<nat>): Option<seq<nat>>
    decreases |wire|
  {
    if wire == [] then Some([])
    else if wire[0] > MAX_INDEX || wire[0] + offset > MAX_INDEX then None
    else
      var x := wire[0] + offset;
      match Restore(x + 1, wire[1..])
      case None => None
      case Some(rest) => Some([x] + rest)
  }

  lemma RestoreOne(offset: nat, d: nat, wire: seq<nat>, rest: seq<nat>)
    requires d + offset <= MAX_INDEX && Restore(d + offset + 1, wire) == Some(rest)
    ensures Restore(offset, [d] + wire) == Some([d + offset] + rest)
  {
    assert ([d] + wire)[1..] == wire;
  }

  /** Every strictly increasing 16-bit list survives the round trip, */
  lemma {:induction false} RequestRoundTrip(next: nat, xs: seq<nat>, wire: seq<nat>)
    requires Ascends(next, xs) && wire == Differences(next, xs)
    ensures Restore(next, wire) == Some(xs)
    decreases |xs|
  {
    if xs != [] {
      var x, rest := xs[0], xs[1..];
      var d := Differences(x + 1, rest);
      RequestRoundTrip(x + 1, rest, d);
      RestoreOne(next, x - next, d, rest);
      assert [x] + rest == xs;
    }
  }

  lemma {:induction false} RestoreAscends(offset: nat, wire: seq<nat>)
    requires Restore(offset, wire).Some?
    ensures var xs := Restore(offset, wire).value;
      |xs| == |wire| && Ascends(offset, xs) && Differences(offset, xs) == wire
    decreases |wire|
  {
    if wire != [] {
      var x := wire[0] + offset;
      RestoreAscends(x + 1, wire[1..]);
      var rest := Restore(x + 1, wire[1..]).value;
      var xs := [x] + rest;
      assert xs[1..] == rest;
      assert [wire[0]] + wire[1..] == wire;
    }
  }

  /** and every accepted list is strictly increasing, and is what would have been written. */
  lemma RequestAccepted(offset: nat, wire: seq<nat>)
    requires Restore(offset, wire).Some?
    ensures var xs := Restore(offset, wire).value;
      |xs| == |wire| && Indexes(xs) && Ascends(offset, xs) && Differences(offset, xs) == wire
  {
    RestoreAscends(offset, wire);
    AscendsMeans(offset, Restore(offset, wire).value);
  }

  /** The loop that restores a request in place. */
  method ReadRequest(wire: seq<nat>) returns (r: Option<seq<nat>>)
    ensures r == Restore(0, wire)
  {
    var xs: seq<nat> := [];
    var offset: nat, j: nat := 0, 0;
    assert wire[0..] == wire;
    After([], Restore(0, wire));
    while j < |wire|
      invariant j <= |wire| && Restore(0, wire) == Prepend(xs, Restore(offset, wire[j..]))
    {
      assert wire[j..][1..] == wire[j + 1..];
      if wire[j] > MAX_INDEX || wire[j] + offset > MAX_INDEX { return None; }
      var x := wire[j] + offset;
      AfterOne(xs, x, Restore(x + 1, wire[j + 1..]));
      xs := xs + [x];
      offset := x + 1;
      j := j + 1;
    }
    assert xs + [] == xs;
    r := Some(xs);
  }

  function Prepend(xs: seq<nat>, r: Option<seq<nat>>): Option<seq<nat>> { if r.None? then None else Some(xs + r.value) }

  lemma After(xs: seq<nat>, r: Option<seq<nat>>)
    requires xs == []
    ensures Prepend(xs, r) == r
  {
    if r.Some? { assert xs + r.value == r.value; }
  }

  lemma AfterOne(xs: seq<nat>, x: nat, r: Option<seq<nat>>)
    ensures Prepend(xs + [x], r) == Prepend(xs, Prepend([x], r))
  {
    if r.Some? { assert xs + [x] + r.value == xs + ([x] + r.value); }
  }

  // ------------------------------------------------------------------ prefilling

  datatype Prefilled = Prefilled(index: nat, tx: Option<Tx>)

  function Filled(slots: Slots): nat {
    if slots == [] then 0 else (if slots[0].Some? then 1 else 0) + Filled(slots[1..])
  }

  /** Places the prefilled transactions; `last` is the position of the previous one. */
  function Prefill(slots: Slots, shorts: nat, pre: seq<Prefilled>, i: nat, last: int): Option<Slots>
    requires i <= |pre| && |slots| == shorts + |pre| && -1 <= last < |slots|
    decreases |pre| - i
  {
    if i == |pre| then Some(slots)
    else if pre[i].tx.None? then None
    else
      var pos := last + pre[i].index + 1;
      if pos > MAX_INDEX || pos > shorts + i then None
      else Prefill(slots[pos := pre[i].tx], shorts, pre, i + 1, pos)
  }

  lemma {:induction false} FilledUpdate(slots: Slots, pos: nat, tx: Option<Tx>)
    requires pos < |slots|
    ensures Filled(slots[pos := tx]) + (if slots[pos].Some? then 1 else 0) ==
      Filled(slots) + (if tx.Some? then 1 else 0)
    decreases |slots|
  {
    if pos == 0 {
      assert slots[0 := tx][1..] == slots[1..];
    } else {
      assert slots[pos := tx][1..] == slots[1..][pos - 1 := tx];
      FilledUpdate(slots[1..], pos - 1, tx);
    }
  }

  /** Accepted prefilled transactions go to distinct slots, so exactly the others stay empty. */
  lemma {:induction false} PrefillMeans(slots: Slots, shorts: nat, pre: seq<Prefilled>, i: nat, last: int)
    requires i <= |pre| && |slots| == shorts + |pre| && -1 <= last < |slots|
    requires (forall p :: last < p < |slots| ==> slots[p].None?) && Filled(slots) == i
    ensures var r := Prefill(slots, shorts, pre, i, last); r.Some? ==>
      && |r.value| == |slots| && Filled(r.value) == |pre| && forall p :: 0 <= p <= last ==> r.value[p] == slots[p]
    decreases |pre| - i
  {
    if i < |pre| && pre[i].tx.Some? {
      var pos := last + pre[i].index + 1;
      if pos <= MAX_INDEX && pos <= shorts + i {
        FilledUpdate(slots, pos, pre[i].tx);
        PrefillMeans(slots[pos := pre[i].tx], shorts, pre, i + 1, pos);
      }
    }
  }

  // ------------------------------------------------------------- the empty slots

  /** The positions of the empty slots from `i` on. */
  function Empty(slots: Slots, i: nat): (r: seq<nat>)
    requires i <= |slots|
    ensures forall k :: 0 <= k < |r| ==> i <= r[k] < |slots| && slots[r[k]].None?
    decreases |slots| - i
  {
    if i == |slots| then [] else if slots[i].None? then [i] + Empty(slots, i + 1) else Empty(slots, i + 1)
  }

  lemma {:induction false} EmptyCount(slots: Slots, i: nat)
    requires i <= |slots|
    ensures |Empty(slots, i)| + Filled(slots[i..]) == |slots| - i && Increasing(Empty(slots, i))
    decreases |slots| - i
  {
    if i < |slots| {
      assert slots[i..][1..] == slots[i + 1..];
      EmptyCount(slots, i + 1);
    }
  }

  lemma RoomLeft(slots: Slots, i: nat, n: nat)
    requires i <= |slots| && |Empty(slots, i)| == n
    ensures n <= |slots| - i
  {
    EmptyCount(slots, i);
  }

  lemma {:induction false} EmptyAll(slots: Slots, i: nat, p: nat)
    requires i <= p < |slots| && slots[p].None?
    ensures p in Empty(slots, i)
    decreases |slots| - i
  {
    if i < p { EmptyAll(slots, i + 1, p); }
  }

  // ---------------------------------------------------------------- the id map

  predicate Distinct(xs: seq<nat>) { forall i, j :: 0 <= i < j < |xs| ==> xs[i] != xs[j] }

  /** Positions are stored in 16 bits. */
  function Truncated(p: nat): (r: nat)
    ensures r == p <==> p <= MAX_INDEX
  {
    p % 0x1_0000
  }

  /** Short id to slot, for the first `n` short ids; a repeated id overwrites. */
  function IdMap(shorts: seq<nat>, slots: seq<nat>, n: nat): map<nat, nat>
    requires n <= |shorts| == |slots|
    decreases n
  {
    if n == 0 then map[] else IdMap(shorts, slots, n - 1)[shorts[n - 1] := Truncated(slots[n - 1])]
  }

  lemma {:induction false} IdMapKeys(shorts: seq<nat>, slots: seq<nat>, n: nat)
    requires n <= |shorts| == |slots|
    ensures forall id :: id in IdMap(shorts, slots, n) <==> id in shorts[..n]
    decreases n
  {
    if n > 0 {
      IdMapKeys(shorts, slots, n - 1);
      assert shorts[..n] == shorts[..n - 1] + [shorts[n - 1]];
    }
  }

  /** Its size tells whether any short id was repeated. */
  lemma {:induction false} IdMapSize(shorts: seq<nat>, slots: seq<nat>, n: nat)
    requires n <= |shorts| == |slots|
    ensures |IdMap(shorts, slots, n)| <= n && (|IdMap(shorts, slots, n)| == n <==> Distinct(shorts[..n]))
    decreases n
  {
    if n > 0 {
      IdMapSize(shorts, slots, n - 1);
      IdMapKeys(shorts, slots, n - 1);
      var m, id := IdMap(shorts, slots, n - 1), shorts[n - 1];
      assert shorts[..n] == shorts[..n - 1] + [id];
      MapGrows(m, id, Truncated(slots[n - 1]));
      if id in m { NotDistinct(shorts[..n - 1], id); } else { DistinctMore(shorts[..n - 1], id); }
    }
  }

  lemma MapGrows(m: map<nat, nat>, id: nat, p: nat)
    ensures |m[id := p]| == |m| + if id in m then 0 else 1
  {
    if id in m { assert m[id := p].Keys == m.Keys; } else { assert m[id := p].Keys == m.Keys + {id}; }
    assert |m[id := p]| == |m[id := p].Keys| && |m| == |m.Keys|;
  }

  lemma NotDistinct(xs: seq<nat>, x: nat)
    requires x in xs
    ensures !Distinct(xs + [x])
  {
    var k :| 0 <= k < |xs| && xs[k] == x;
    assert (xs + [x])[k] == (xs + [x])[|xs|];
  }

  lemma DistinctMore(xs: seq<nat>, x: nat)
    requires x !in xs
    ensures Distinct(xs + [x]) <==> Distinct(xs)
  {
    assert forall i :: 0 <= i < |xs| ==> (xs + [x])[i] == xs[i];
  }

  lemma {:induction false} IdMapAt(shorts: seq<nat>, slots: seq<nat>, n: nat, k: nat)
    requires k < n <= |shorts| == |slots| && Distinct(shorts)
    ensures shorts[k] in IdMap(shorts, slots, n) && IdMap(shorts, slots, n)[shorts[k]] == Truncated(slots[k])
    decreases n
  {
    if k < n - 1 { IdMapAt(shorts, slots, n - 1, k); }
  }

  // ------------------------------------------------------------------- scanning

  type ShortId = Tx -> nat
  datatype Scan = Scan(slots: Slots, have: seq<bool>, count: int)

  /** One candidate transaction; `extra` candidates are compared with what is there first. */
  function ScanOne(short: ShortId, ids: map<nat, nat>, s: Scan, tx: Tx, extra: bool): Scan {
    if short(tx) !in ids then s
    else
      var p := ids[short(tx)];
      if p >= |s.slots| || p >= |s.have| then s
      else if !s.have[p] then Scan(s.slots[p := Some(tx)], s.have[p := true], s.count + 1)
      else if s.slots[p].Some? && !(extra && s.slots[p].value == tx) then Scan(s.slots[p := None], s.have, s.count - 1)
      else s
  }

  /** A list of candidates, until every short id is satisfied. */
  function ScanAll(short: ShortId, ids: map<nat, nat>, s: Scan, txs: seq<Tx>, extra: bool): Scan
    decreases |txs|
  {
    if txs == [] then s
    else
      var t := ScanOne(short, ids, s, txs[0], extra);
      if t.count == |ids| then t else ScanAll(short, ids, t, txs[1..], extra)
  }

  /** Every id leads to a slot that was empty, and different ids to different slots. */
  predicate IdsOk(base: Slots, ids: map<nat, nat>) {
    && (forall id :: id in ids ==> ids[id] < |base| && base[ids[id]].None?)
    && (forall id, jd :: id in ids && jd in ids && ids[id] == ids[jd] ==> id == jd)
  }

  /** What holds of a slot: prefilled ones are as they were; a found transaction has the short id of
      its slot and is one of the candidates. */
  predicate SlotOk(short: ShortId, base: Slots, ids: map<nat, nat>, from: set<Tx>, s: Scan, p: nat)
    requires p < |base| == |s.slots| == |s.have|
  {
    if base[p].Some? then s.slots[p] == base[p] && !s.have[p]
    else s.slots[p].Some? ==>
        s.have[p] && s.slots[p].value in from && short(s.slots[p].value) in ids &&
        ids[short(s.slots[p].value)] == p
  }

  predicate ScanOk(short: ShortId, base: Slots, ids: map<nat, nat>, from: set<Tx>, s: Scan) {
    && |base| == |s.slots| == |s.have| && Filled(s.slots) == Filled(base) + s.count
    && forall p: nat :: p < |base| ==> SlotOk(short, base, ids, from, s, p)
  }

  lemma ScanOneKeeps(short: ShortId, base: Slots, ids: map<nat, nat>, from: set<Tx>, s: Scan, tx: Tx, extra: bool)
    requires IdsOk(base, ids) && ScanOk(short, base, ids, from, s)
    ensures ScanOk(short, base, ids, from + {tx}, ScanOne(short, ids, s, tx, extra))
  {
    var t := ScanOne(short, ids, s, tx, extra);
    if short(tx) in ids {
      var p := ids[short(tx)];
      assert SlotOk(short, base, ids, from, s, p);
      if !s.have[p] { FilledUpdate(s.slots, p, Some(tx)); }
      else if s.slots[p].Some? && !(extra && s.slots[p].value == tx) { FilledUpdate(s.slots, p, None); }
    }
    forall q: nat | q < |base| ensures SlotOk(short, base, ids, from + {tx}, t, q) {
      assert SlotOk(short, base, ids, from, s, q);
    }
  }

  lemma {:induction false} ScanAllKeeps(
      short: ShortId, base: Slots, ids: map<nat, nat>, from: set<Tx>, s: Scan, txs: seq<Tx>, extra: bool)
    requires IdsOk(base, ids) && ScanOk(short, base, ids, from, s)
    ensures ScanOk(short, base, ids, from + (set i | 0 <= i < |txs| :: txs[i]), ScanAll(short, ids, s, txs, extra))
    decreases |txs|
  {
    var all := from + (set i | 0 <= i < |txs| :: txs[i]);
    if txs == [] {
      assert all == from;
    } else {
      ScanOneKeeps(short, base, ids, from, s, txs[0], extra);
      var t := ScanOne(short, ids, s, txs[0], extra);
      ScanAllKeeps(short, base, ids, from + {txs[0]}, t, txs[1..], extra);
      var rest := set i | 0 <= i < |txs[1..]| :: txs[1..][i];
      forall x | x in from + {txs[0]} + rest ensures x in all {
        if x in rest { var i :| 0 <= i < |txs[1..]| && txs[1..][i] == x; assert txs[i + 1] == x; } else if x == txs[0] {
          assert txs[0] in all;
        }
      }
      Widen(short, base, ids, from + {txs[0]}, all, t);
      Widen(short, base, ids, from + {txs[0]} + rest, all, ScanAll(short, ids, t, txs[1..], extra));
    }
  }

  lemma Widen(short: ShortId, base: Slots, ids: map<nat, nat>, from: set<Tx>, more: set<Tx>, s: Scan)
    requires from <= more
    ensures ScanOk(short, base, ids, from, s) ==> ScanOk(short, base, ids, more, s)
  {
    if ScanOk(short, base, ids, from, s) {
      forall p: nat | p < |base| ensures SlotOk(short, base, ids, more, s, p) {
        assert SlotOk(short, base, ids, from, s, p);
      }
    }
  }

  // ------------------------------------------------------- receiving the message

  const MAX_TRANSACTIONS := 4000000 / (4 * 10)

  datatype Message = Message(headerNull: bool, shorts: seq<nat>, prefilled: seq<Prefilled>)
  datatype Status = Ok(slots: Slots) | Invalid | Failed

  function NoSlots(n: nat): (r: Slots)
    ensures |r| == n && forall p :: 0 <= p < n ==> r[p].None?
  {
    seq(n, _ => None)
  }

  lemma {:induction false} NoSlotsFilled(n: nat)
    ensures Filled(NoSlots(n)) == 0
  {
    if n > 0 {
      assert NoSlots(n)[1..] == NoSlots(n - 1);
      NoSlotsFilled(n - 1);
    }
  }

  /** The slots after prefilling, if the message is well-formed. */
  function Prefilling(msg: Message): (r: Option<Slots>)
    ensures r.Some? ==> |r.value| == |msg.shorts| + |msg.prefilled| && |Empty(r.value, 0)| == |msg.shorts|
  {
    var n := |msg.shorts| + |msg.prefilled|;
    if msg.headerNull || n == 0 || n > MAX_TRANSACTIONS then None
    else
      NoSlotsFilled(n);
      PrefillMeans(NoSlots(n), |msg.shorts|, msg.prefilled, 0, -1);
      var r := Prefill(NoSlots(n), |msg.shorts|, msg.prefilled, 0, -1);
      PrefillLeaves(r, |msg.shorts|, |msg.prefilled|);
      r
  }

  lemma PrefillLeaves(r: Option<Slots>, shorts: nat, pre: nat)
    requires r.Some? ==> |r.value| == shorts + pre && Filled(r.value) == pre
    ensures r.Some? ==> |Empty(r.value, 0)| == shorts
  {
    if r.Some? {
      EmptyCount(r.value, 0);
      assert r.value[0..] == r.value;
    }
  }

  function Ids(msg: Message, base: Slots): map<nat, nat>
    requires |Empty(base, 0)| == |msg.shorts|
  {
    IdMap(msg.shorts, Empty(base, 0), |msg.shorts|)
  }

  /** The slots after looking through the mempool and the extra transactions. */
  function Search(short: ShortId, ids: map<nat, nat>, base: Slots, pool: seq<Tx>, extra: seq<Tx>): Scan {
    ScanAll(short, ids, ScanAll(short, ids, Scan(base, seq(|base|, _ => false), 0), pool, false), extra, true)
  }

  /** `InitData`; `crowded` says that some bucket of the id table overflowed. */
  function Initialised(short: ShortId, msg: Message, crowded: bool, pool: seq<Tx>, extra: seq<Tx>): Status {
    var base := Prefilling(msg);
    if base.None? then Invalid
    else if crowded || |Ids(msg, base.value)| != |msg.shorts| then Failed
    else Ok(Search(short, Ids(msg, base.value), base.value, pool, extra).slots)
  }

  /** The id table leads to the right slots if and only if every empty position fits 16 bits. */
  lemma PositionsExact(msg: Message, base: Slots)
    requires |Empty(base, 0)| == |msg.shorts| && Distinct(msg.shorts)
    ensures var ids, slots := Ids(msg, base), Empty(base, 0);
      (forall k :: 0 <= k < |msg.shorts| ==> msg.shorts[k] in ids && ids[msg.shorts[k]] == slots[k]) <==>
      (forall k :: 0 <= k < |msg.shorts| ==> slots[k] <= MAX_INDEX)
  {
    forall k | 0 <= k < |msg.shorts|
      ensures msg.shorts[k] in Ids(msg, base)
      ensures (Ids(msg, base)[msg.shorts[k]] == Empty(base, 0)[k] <==> Empty(base, 0)[k] <= MAX_INDEX)
    {
      IdMapAt(msg.shorts, Empty(base, 0), |msg.shorts|, k);
    }
  }

  lemma {:induction false} EmptyOfNone(slots: Slots, i: nat, k: nat)
    requires i + k < |slots| && forall p :: 0 <= p < |slots| ==> slots[p].None?
    ensures k < |Empty(slots, i)| && Empty(slots, i)[k] == i + k
    decreases k
  {
    if k > 0 { EmptyOfNone(slots, i + 1, k - 1); }
  }

  /** A single candidate goes to the slot its short id leads to. */
  lemma SearchSingle(short: ShortId, ids: map<nat, nat>, base: Slots, tx: Tx)
    requires short(tx) in ids && ids[short(tx)] < |base| && |ids| > 1
    ensures Search(short, ids, base, [tx], []).slots == base[ids[short(tx)] := Some(tx)]
  {
    var s := Scan(base, seq(|base|, _ => false), 0);
    var t := ScanOne(short, ids, s, tx, false);
    assert [tx][1..] == [];
    assert ScanAll(short, ids, s, [tx], false) == t;
  }

  /** With more than 65536 short ids and nothing prefilled, the transaction of the short id at
      position 65536 is put into slot 0, which belongs to another short id, and its own stays empty. */
  lemma Misplaced(short: ShortId, msg: Message, tx: Tx)
    requires !msg.headerNull && msg.prefilled == [] && MAX_INDEX + 1 < |msg.shorts| <= MAX_TRANSACTIONS
    requires Distinct(msg.shorts) && short(tx) == msg.shorts[MAX_INDEX + 1]
    ensures var r := Initialised(short, msg, false, [tx], []);
      && r.Ok? && |r.slots| == |msg.shorts|
      && r.slots[0] == Some(tx) && short(tx) != msg.shorts[0] && r.slots[MAX_INDEX + 1] == None
  {
    var base := NoSlots(|msg.shorts|);
    NothingPrefilled(msg, base);
    WrappedId(msg, base);
    SearchSingle(short, Ids(msg, base), base, tx);
  }

  lemma NothingPrefilled(msg: Message, base: Slots)
    requires !msg.headerNull && msg.prefilled == [] && 0 < |msg.shorts| <= MAX_TRANSACTIONS
    requires base == NoSlots(|msg.shorts|)
    ensures Prefilling(msg) == Some(base) && |Empty(base, 0)| == |msg.shorts|
  {}

  lemma WrappedId(msg: Message, base: Slots)
    requires MAX_INDEX + 1 < |msg.shorts| && Distinct(msg.shorts) && base == NoSlots(|msg.shorts|)
    requires |Empty(base, 0)| == |msg.shorts|
    ensures var ids := Ids(msg, base);
      |ids| == |msg.shorts| && msg.shorts[MAX_INDEX + 1] in ids && ids[msg.shorts[MAX_INDEX + 1]] == 0
  {
    var n, shorts, slots := |msg.shorts|, msg.shorts, Empty(base, 0);
    EmptyOfNone(base, 0, MAX_INDEX + 1);
    assert shorts[..n] == shorts;
    IdMapSize(shorts, slots, n);
    IdMapAt(shorts, slots, n, MAX_INDEX + 1);
  }

  /** There are such messages: 65537 short ids that are all different. */
  lemma MisplacedExists() returns (short: ShortId, msg: Message, tx: Tx)
    ensures !msg.headerNull && msg.prefilled == [] && MAX_INDEX + 1 < |msg.shorts| <= MAX_TRANSACTIONS
    ensures Distinct(msg.shorts) && short(tx) == msg.shorts[MAX_INDEX + 1]
  {
    short, msg, tx := x => x, Message(false, seq(MAX_INDEX + 2, i => i), []), MAX_INDEX + 1;
  }

  lemma IdsAreOk(msg: Message, base: Slots)
    requires |base| <= MAX_INDEX + 1
    requires |Empty(base, 0)| == |msg.shorts| && |Ids(msg, base)| == |msg.shorts|
    ensures Distinct(msg.shorts) && IdsOk(base, Ids(msg, base))
  {
    var shorts, slots, n := msg.shorts, Empty(base, 0), |msg.shorts|;
    IdMapSize(shorts, slots, n);
    IdMapKeys(shorts, slots, n);
    EmptyCount(base, 0);
    assert shorts[..n] == shorts;
    var ids := Ids(msg, base);
    forall id | id in ids ensures exists k :: 0 <= k < n && shorts[k] == id && ids[id] == slots[k] {
      assert id in shorts;
      var k :| 0 <= k < n && shorts[k] == id;
      IdAt(msg, base, k);
    }
    ReverseIds(shorts, slots, base, ids);
  }

  lemma IdAt(msg: Message, base: Slots, k: nat)
    requires |base| <= MAX_INDEX + 1 && |Empty(base, 0)| == |msg.shorts| && Distinct(msg.shorts) && k < |msg.shorts|
    ensures msg.shorts[k] in Ids(msg, base) && Ids(msg, base)[msg.shorts[k]] == Empty(base, 0)[k]
  {
    IdMapAt(msg.shorts, Empty(base, 0), |msg.shorts|, k);
  }

  lemma ReverseIds(shorts: seq<nat>, slots: seq<nat>, base: Slots, ids: map<nat, nat>)
    requires |shorts| == |slots| && Increasing(slots) && forall k :: 0 <= k < |slots| ==>
        slots[k] < |base| &&
        base[slots[k]].None?
    requires forall id :: id in ids ==> exists k :: 0 <= k < |shorts| && shorts[k] == id && ids[id] == slots[k]
    ensures IdsOk(base, ids)
  {}

  ghost function Candidates(pool: seq<Tx>, extra: seq<Tx>): set<Tx> {
    (set i | 0 <= i < |pool| :: pool[i]) + (set i | 0 <= i < |extra| :: extra[i])
  }

  lemma SearchOk(short: ShortId, ids: map<nat, nat>, base: Slots, pool: seq<Tx>, extra: seq<Tx>)
    requires IdsOk(base, ids)
    ensures ScanOk(short, base, ids, Candidates(pool, extra), Search(short, ids, base, pool, extra))
  {
    var s := Scan(base, seq(|base|, _ => false), 0);
    assert ScanOk(short, base, ids, {}, s);
    ScanAllKeeps(short, base, ids, {}, s, pool, false);
    var found := set i | 0 <= i < |pool| :: pool[i];
    assert {} + found == found;
    ScanAllKeeps(short, base, ids, found, ScanAll(short, ids, s, pool, false), extra, true);
  }

  /** Whatever the mempool and the extra transactions, and whatever the message of at most 65536
      transactions, which every message that can be read from the wire is: prefilled slots keep what
      they were given, and any other slot holds nothing or a candidate with the short id of that slot. */
  lemma InitSound(short: ShortId, msg: Message, crowded: bool, pool: seq<Tx>, extra: seq<Tx>, k: nat)
    requires Initialised(short, msg, crowded, pool, extra).Ok? && |msg.shorts| + |msg.prefilled| <= MAX_INDEX + 1
    ensures var slots, base := Initialised(short, msg, crowded, pool, extra).slots, Prefilling(msg).value;
      && |slots| == |base| == |msg.shorts| + |msg.prefilled|
      && (forall p :: 0 <= p < |base| && base[p].Some? ==> slots[p] == base[p])
      && (k < |msg.shorts| ==> var tx := slots[Empty(base, 0)[k]];
            tx.Some? ==> short(tx.value) == msg.shorts[k] && tx.value in Candidates(pool, extra))
  {
    var base := Prefilling(msg).value;
    var ids := Ids(msg, base);
    IdsAreOk(msg, base);
    SearchOk(short, ids, base, pool, extra);
    var s := Search(short, ids, base, pool, extra);
    forall p: nat | p < |base| && base[p].Some? ensures s.slots[p] == base[p] {
      assert SlotOk(short, base, ids, Candidates(pool, extra), s, p);
    }
    if k < |msg.shorts| {
      IdAt(msg, base, k);
      assert SlotOk(short, base, ids, Candidates(pool, extra), s, Empty(base, 0)[k]);
    }
  }

  // ------------------------------------------------------------ filling the block

  /** `FillBlock`: empty slots take the missing transactions in order, none too few and none too many. */
  function Fill(slots: Slots, missing: seq<Tx>): Option<seq<Tx>>
    decreases |slots|
  {
    if slots == [] then (if missing == [] then Some([]) else None)
    else if slots[0].Some? then Cons(slots[0].value, Fill(slots[1..], missing))
    else if missing == [] then None
    else Cons(missing[0], Fill(slots[1..], missing[1..]))
  }

  function Cons(tx: Tx, r: Option<seq<Tx>>): Option<seq<Tx>> { if r.None? then None else Some([tx] + r.value) }

  /** What a call with too few transactions leaves: the slots it had used are moved out. */
  function Drained(slots: Slots, n: nat): Slots
    decreases |slots|
  {
    if slots == [] || (slots[0].None? && n == 0) then slots
    else [None] + Drained(slots[1..], if slots[0].None? then n - 1 else n)
  }

  /** What the check of the finished block says. */
  datatype BlockCheck = Good | Mutated | Bad
  datatype FillStatus = Complete(vtx: seq<Tx>) | Unfit | Collision | CheckFailed

  function Checked(r: Option<seq<Tx>>, check: seq<Tx> -> BlockCheck): FillStatus {
    if r.None? then Unfit
    else match check(r.value)
      case Good => Complete(r.value)
      case Mutated => Collision
      case Bad => CheckFailed
  }

  lemma {:induction false} FillCount(slots: Slots, missing: seq<Tx>)
    ensures Fill(slots, missing).Some? <==> |missing| + Filled(slots) == |slots|
    decreases |slots|
  {
    if slots != [] {
      if slots[0].Some? { FillCount(slots[1..], missing); }
      else if missing != [] { FillCount(slots[1..], missing[1..]); }
      else { FillCount(slots[1..], []); FilledAtMost(slots[1..]); }
    }
  }

  lemma {:induction false} FilledAtMost(slots: Slots)
    ensures Filled(slots) <= |slots|
  {
    if slots != [] { FilledAtMost(slots[1..]); }
  }

  predicate Agree(slots: Slots, vtx: seq<Tx>) {
    |slots| == |vtx| && forall p :: 0 <= p < |slots| ==> slots[p].Some? ==> slots[p].value == vtx[p]
  }

  /** The transactions to ask for, in order. */
  function Missing(slots: Slots, vtx: seq<Tx>): seq<Tx>
    requires |slots| == |vtx|
    decreases |slots|
  {
    if slots == [] then [] else (if slots[0].None? then [vtx[0]] else []) + Missing(slots[1..], vtx[1..])
  }

  lemma {:induction false} FillMissing(slots: Slots, vtx: seq<Tx>)
    requires Agree(slots, vtx)
    ensures Fill(slots, Missing(slots, vtx)) == Some(vtx)
    decreases |slots|
  {
    if slots != [] {
      FillMissing(slots[1..], vtx[1..]);
      FillStep(slots, vtx);
    }
  }

  lemma FillStep(slots: Slots, vtx: seq<Tx>)
    requires Agree(slots, vtx) && slots != [] && Fill(slots[1..], Missing(slots[1..], vtx[1..])) == Some(vtx[1..])
    ensures Fill(slots, Missing(slots, vtx)) == Some(vtx)
  {
    var m := Missing(slots[1..], vtx[1..]);
    assert [vtx[0]] + vtx[1..] == vtx;
    if slots[0].None? {
      assert ([vtx[0]] + m)[1..] == m;
    } else {
      assert [] + m == m;
    }
  }

  // ------------------------------------------------------------- reconstruction

  /** The message describes the block: right transactions prefilled, right short ids for the rest. */
  predicate Describes(short: ShortId, msg: Message, vtx: seq<Tx>) {
    && Prefilling(msg).Some? && Agree(Prefilling(msg).value, vtx)
    && forall k :: 0 <= k < |msg.shorts| ==> msg.shorts[k] == short(vtx[Empty(Prefilling(msg).value, 0)[k]])
  }

  /** Short ids tell the block's transactions from the candidates. */
  ghost predicate Separates(short: ShortId, vtx: seq<Tx>, candidates: set<Tx>) {
    forall tx, p :: tx in candidates && 0 <= p < |vtx| && short(tx) == short(vtx[p]) ==> tx == vtx[p]
  }

  /** If short ids separate the transactions involved, whatever is found is right, and filling in
      the missing transactions in order rebuilds the sender's block exactly. */
  lemma Rebuild(short: ShortId, msg: Message, vtx: seq<Tx>, crowded: bool, pool: seq<Tx>, extra: seq<Tx>)
    requires Describes(short, msg, vtx) && Separates(short, vtx, Candidates(pool, extra))
    requires Initialised(short, msg, crowded, pool, extra).Ok? && |vtx| <= MAX_INDEX + 1
    ensures var slots := Initialised(short, msg, crowded, pool, extra).slots;
      Agree(slots, vtx) && Fill(slots, Missing(slots, vtx)) == Some(vtx)
  {
    var slots, base := Initialised(short, msg, crowded, pool, extra).slots, Prefilling(msg).value;
    InitSound(short, msg, crowded, pool, extra, 0);
    forall p | 0 <= p < |base| && slots[p].Some? ensures slots[p].value == vtx[p] {
      if base[p].None? {
        EmptyAll(base, 0, p);
        var k :| 0 <= k < |Empty(base, 0)| && Empty(base, 0)[k] == p;
        InitSound(short, msg, crowded, pool, extra, k);
      }
    }
    FillMissing(slots, vtx);
  }

  /** The message the sender makes: the first transaction, and short ids of the others. */
  function Compact(short: ShortId, vtx: seq<Tx>): Message
    requires vtx != []
  {
    Message(false, seq(|vtx| - 1, i requires 0 <= i < |vtx| - 1 => short(vtx[i + 1])), [Prefilled(0, Some(vtx[0]))])
  }

  lemma {:induction false} EmptyAfter(slots: Slots, i: nat, k: nat)
    requires i <= |slots| && (forall p :: i <= p < |slots| ==> slots[p].None?) && k < |slots| - i
    ensures |Empty(slots, i)| == |slots| - i && Empty(slots, i)[k] == i + k
    decreases |slots| - i
  {
    if i + 1 < |slots| { EmptyAfter(slots, i + 1, if k > 0 then k - 1 else 0); }
  }

  /** It describes the block, */
  lemma CompactDescribes(short: ShortId, vtx: seq<Tx>)
    requires 0 < |vtx| <= MAX_TRANSACTIONS
    ensures Describes(short, Compact(short, vtx), vtx)
  {
    var msg, n := Compact(short, vtx), |vtx|;
    var base := NoSlots(n)[0 := Some(vtx[0])];
    assert Prefill(base, n - 1, msg.prefilled, 1, 0) == Some(base);
    assert Prefilling(msg) == Some(base);
    forall k | 0 <= k < n - 1 ensures Empty(base, 0)[k] == k + 1 {
      EmptyAfter(base, 1, k);
      assert Empty(base, 0) == Empty(base, 1);
    }
  }

  /** and is accepted whenever its short ids differ and the id table is not crowded. */
  lemma CompactAccepted(short: ShortId, vtx: seq<Tx>, pool: seq<Tx>, extra: seq<Tx>)
    requires 0 < |vtx| <= MAX_TRANSACTIONS
    ensures Initialised(short, Compact(short, vtx), false, pool, extra).Ok? <==> Distinct(Compact(short, vtx).shorts)
  {
    var msg := Compact(short, vtx);
    CompactDescribes(short, vtx);
    IdMapSize(msg.shorts, Empty(Prefilling(msg).value, 0), |msg.shorts|);
    assert msg.shorts[..|msg.shorts|] == msg.shorts;
  }

  // --------------------------------------------------------------- the object

  lemma EmptySkips(slots: Slots, p: nat)
    requires p < |slots|
    ensures slots[p].Some? ==> Empty(slots, p) == Empty(slots, p + 1)
    ensures slots[p].None? ==> Empty(slots, p) == [p] + Empty(slots, p + 1)
  {}

  lemma FillOne(slots: Slots, missing: seq<Tx>, done: seq<Tx>)
    requires slots != [] && (slots[0].None? ==> missing != [])
    ensures Joined(done, Fill(slots, missing)) ==
      if slots[0].Some? then Joined(done + [slots[0].value], Fill(slots[1..], missing))
      else Joined(done + [missing[0]], Fill(slots[1..], missing[1..]))
  {
    var tx := if slots[0].Some? then slots[0].value else missing[0];
    var rest := Fill(slots[1..], if slots[0].Some? then missing else missing[1..]);
    if rest.Some? { assert done + ([tx] + rest.value) == done + [tx] + rest.value; }
  }

  function Joined(done: seq<Tx>, r: Option<seq<Tx>>): Option<seq<Tx>> { if r.None? then None else Some(done + r.value) }

  lemma JoinedNothing(r: Option<seq<Tx>>)
    ensures Joined([], r) == r
  {
    if r.Some? { assert [] + r.value == r.value; }
  }

  /** An empty slot is the next one to be given to a short id. */
  lemma WalkOne(base: Slots, p: nat, slots: seq<nat>, i: nat)
    requires p < |base| && base[p].None? && i < |slots| && Empty(base, p) == slots[i..]
    ensures slots[i] == p && Empty(base, p + 1) == slots[i + 1..]
  {
    EmptySkips(base, p);
    assert slots[i] == slots[i..][0] && slots[i..][1..] == slots[i + 1..];
  }

  /** The loop of `FillBlock` at slot `i`: the slots before it have been moved out. */
  ghost predicate Filling(was: Slots, missing: seq<Tx>, i: nat, offset: nat, vtx: seq<Tx>, now: Slots) {
    && i <= |was| && offset <= |missing| && now == NoSlots(i) + was[i..]
    && Fill(was, missing) == Joined(vtx, Fill(was[i..], missing[offset..]))
    && Drained(was, |missing|) == NoSlots(i) + Drained(was[i..], |missing| - offset)
    && |missing| + Filled(was) - |was| == |missing| - offset + Filled(was[i..]) - |was[i..]|
  }

  lemma FillingStart(was: Slots, missing: seq<Tx>)
    ensures Filling(was, missing, 0, 0, [], was)
  {
    assert was[0..] == was && missing[0..] == missing;
    assert NoSlots(0) + was == was && NoSlots(0) + Drained(was, |missing|) == Drained(was, |missing|);
    JoinedNothing(Fill(was, missing));
  }

  lemma FillingStep(was: Slots, missing: seq<Tx>, i: nat, offset: nat, vtx: seq<Tx>, now: Slots)
    requires Filling(was, missing, i, offset, vtx, now) && i < |was| && (now[i].None? ==> offset < |missing|)
    ensures now[i] == was[i]
    ensures if now[i].None? then Filling(was, missing, i + 1, offset + 1, vtx + [missing[offset]], now[i := None])
      else Filling(was, missing, i + 1, offset, vtx + [now[i].value], now[i := None])
  {
    assert was[i..][1..] == was[i + 1..] && was[i..][0] == was[i];
    assert offset < |missing| ==> missing[offset..][1..] == missing[offset + 1..];
    assert now[i := None] == NoSlots(i + 1) + was[i + 1..];
    FillOne(was[i..], missing[offset..], vtx);
    var n := if was[i].None? then |missing| - offset - 1 else |missing| - offset;
    assert NoSlots(i) + ([None] + Drained(was[i + 1..], n)) == NoSlots(i + 1) + Drained(was[i + 1..], n);
  }

  lemma FillingShort(was: Slots, missing: seq<Tx>, i: nat, offset: nat, vtx: seq<Tx>, now: Slots)
    requires Filling(was, missing, i, offset, vtx, now) && i < |was| && now[i].None? && |missing| == offset
    ensures Fill(was, missing) == None && now == Drained(was, |missing|) && |missing| + Filled(was) < |was|
  {
    assert was[i..][0] == was[i] && was[i..][1..] == was[i + 1..];
    FilledAtMost(was[i + 1..]);
  }

  lemma FillingEnd(was: Slots, missing: seq<Tx>, offset: nat, vtx: seq<Tx>, now: Slots)
    requires Filling(was, missing, |was|, offset, vtx, now)
    ensures Fill(was, missing) == (if |missing| != offset then None else Some(vtx)) && |missing| + Filled(was) >= |was|
  {
    assert was[|was|..] == [] && vtx + [] == vtx;
  }

  class PartiallyDownloadedBlock {
    var txnAvailable: Slots

    constructor ()
      ensures txnAvailable == []
    {
      txnAvailable := [];
    }

    static method PlacePrefilled(msg: Message) returns (r: Option<Slots>)
      ensures r == Prefilling(msg)
    {
      var n := |msg.shorts| + |msg.prefilled|;
      if msg.headerNull || n == 0 || n > MAX_TRANSACTIONS { return None; }
      var slots := NoSlots(n);
      var last: int, i: nat := -1, 0;
      while i < |msg.prefilled|
        invariant i <= |msg.prefilled| && |slots| == n && -1 <= last < n
        invariant Prefilling(msg) == Prefill(slots, |msg.shorts|, msg.prefilled, i, last)
      {
        if msg.prefilled[i].tx.None? { return None; }
        last := last + msg.prefilled[i].index + 1;
        if last > MAX_INDEX || last > |msg.shorts| + i { return None; }
        slots := slots[last := msg.prefilled[i].tx];
        i := i + 1;
      }
      r := Some(slots);
    }

    /** The next empty slot from `p` on; there is one. */
    static method NextEmpty(base: Slots, p: nat) returns (q: nat)
      requires p <= |base| && Empty(base, p) != []
      ensures p <= q < |base| && base[q].None? && Empty(base, q) == Empty(base, p)
    {
      q := p;
      assert Empty(base, |base|) == [];
      while base[q].Some?
        invariant p <= q < |base| && Empty(base, q) == Empty(base, p)
        decreases |base| - q
      {
        EmptySkips(base, q);
        q := q + 1;
      }
    }

    /** Walks the empty slots along with the short ids; never past the last slot, and with a running
        offset that never exceeds the number of prefilled slots. */
    static method BuildIds(msg: Message, base: Slots) returns (ids: map<nat, nat>, ghost offset: int)
      requires |Empty(base, 0)| == |msg.shorts|
      ensures ids == Ids(msg, base) && offset <= |base| - |msg.shorts|
    {
      ids, offset := map[], 0;
      var i: nat, next: nat := 0, 0;  // `next` is the index plus the running offset
      ghost var slots := Empty(base, 0);
      assert slots[0..] == slots;
      RoomLeft(base, 0, |slots|);
      while i < |msg.shorts|
        invariant i <= |msg.shorts| && next <= |base| && Empty(base, next) == slots[i..]
        invariant ids == IdMap(msg.shorts, slots, i) && offset <= |base| - |msg.shorts|
      {
        var p := NextEmpty(base, next);
        offset := p - i;
        RoomLeft(base, p, |msg.shorts| - i);
        WalkOne(base, p, slots, i);
        ids := ids[msg.shorts[i] := Truncated(p)];
        next := p + 1;
        i := i + 1;
      }
    }

    static method LookThrough(short: ShortId, ids: map<nat, nat>, s0: Scan, txs: seq<Tx>, extra: bool) returns (s: Scan)
      ensures s == ScanAll(short, ids, s0, txs, extra)
    {
      s := s0;
      var i := 0;
      assert txs[0..] == txs;
      while i < |txs|
        invariant i <= |txs| && ScanAll(short, ids, s, txs[i..], extra) == ScanAll(short, ids, s0, txs, extra)
      {
        assert txs[i..][1..] == txs[i + 1..];
        s := ScanOne(short, ids, s, txs[i], extra);
        if s.count == |ids| { return; }
        i := i + 1;
      }
    }

    method InitData(short: ShortId, msg: Message, crowded: bool, pool: seq<Tx>, extra: seq<Tx>) returns (status: Status)
      requires txnAvailable == []
      modifies this
      ensures status == Initialised(short, msg, crowded, pool, extra)
      ensures status.Ok? ==> txnAvailable == status.slots
    {
      var base := PlacePrefilled(msg);
      if base.None? { return Invalid; }
      txnAvailable := base.value;
      var ids, offset := BuildIds(msg, base.value);
      if crowded || |ids| != |msg.shorts| { return Failed; }
      var s := LookThrough(short, ids, Scan(base.value, seq(|base.value|, _ => false), 0), pool, false);
      s := LookThrough(short, ids, s, extra, true);
      txnAvailable := s.slots;
      status := Ok(s.slots);
    }

    /** Filling succeeds exactly with the right number of transactions and a good block.  It empties the
        object, except that with too few transactions it only moves out the slots it has used. */
    method FillBlock(missing: seq<Tx>, check: seq<Tx> -> BlockCheck) returns (status: FillStatus)
      modifies this
      ensures status == Checked(Fill(old(txnAvailable), missing), check)
      ensures status == Unfit <==> |missing| + Filled(old(txnAvailable)) != |old(txnAvailable)|
      ensures txnAvailable == if |missing| + Filled(old(txnAvailable)) >= |old(txnAvailable)| then []
        else Drained(old(txnAvailable), |missing|)
    {
      FillCount(txnAvailable, missing);
      var vtx := FillSlots(missing);
      if vtx.None? { return Unfit; }
      match check(vtx.value) {
        case Good => status := Complete(vtx.value);
        case Mutated => status := Collision;
        case Bad => status := CheckFailed;
      }
    }

    method FillSlots(missing: seq<Tx>) returns (r: Option<seq<Tx>>)
      modifies this
      ensures r == Fill(old(txnAvailable), missing)
      ensures txnAvailable == if |missing| + Filled(old(txnAvailable)) >= |old(txnAvailable)| then []
        else Drained(old(txnAvailable), |missing|)
    {
      ghost var was := txnAvailable;
      var n, vtx: seq<Tx>, i: nat, offset: nat := |txnAvailable|, [], 0, 0;
      FillingStart(was, missing);
      while i < n
        invariant |txnAvailable| == n == |was| && Filling(was, missing, i, offset, vtx, txnAvailable)
      {
        if txnAvailable[i].None? && |missing| <= offset {
          FillingShort(was, missing, i, offset, vtx, txnAvailable);
          return None;
        }
        FillingStep(was, missing, i, offset, vtx, txnAvailable);
        if txnAvailable[i].None? {
          vtx := vtx + [missing[offset]];
          offset := offset + 1;
        } else {
          vtx := vtx + [txnAvailable[i].value];
        }
        txnAvailable := txnAvailable[i := None];
        i := i + 1;
      }
      FillingEnd(was, missing, offset, vtx, txnAvailable);
      txnAvailable := [];
      r := if |missing| != offset then None else Some(vtx);
    }
  }
}
