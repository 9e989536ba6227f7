/** The cuckoo cache: eight hash locations per element, a discard flag and an epoch flag per slot,
    and insertion that displaces at most `depthLimit` elements. */
module Cuckoo {
  import opened Numbers

  type Element = nat

  datatype Config = Config(hash: (nat, Element) -> uint32, size: nat, epochSize: nat, depthLimit: nat)

  predicate Wf(cfg: Config) { cfg.size >= 2 && cfg.epochSize >= 1 }

  datatype State = State(table: seq<Element>, flags: seq<bool>, epochs: seq<bool>, counter: nat)

  predicate Sized(cfg: Config, s: State) { |s.table| == |s.flags| == |s.epochs| == cfg.size }

  function Loc(cfg: Config, e: Element, k: nat): (r: nat)
    requires Wf(cfg)
    ensures r < cfg.size
  {
    FastMod(cfg.hash(k, e), cfg.size)
  }

  /** `compute_hashes`. */
  function Locs(cfg: Config, e: Element): (r: seq<nat>)
    requires Wf(cfg)
    ensures |r| == 8 && forall k :: 0 <= k < 8 ==> r[k] < cfg.size
  {
    seq(8, k requires 0 <= k < 8 => Loc(cfg, e, k))
  }

  /** The first index at or after `k` whose slot is flagged, or whose slot holds `e`, or which is `last`; else 8. */
  function FindFree(flags: seq<bool>, locs: seq<nat>, k: nat): (r: nat)
    requires k <= |locs| && forall j :: 0 <= j < |locs| ==> locs[j] < |flags|
    ensures k <= r <= |locs| && (r < |locs| ==> flags[locs[r]]) && forall j :: k <= j < r ==> !flags[locs[j]]
    decreases |locs| - k
  {
    if k == |locs| || flags[locs[k]] then k else FindFree(flags, locs, k + 1)
  }

  function FindElement(table: seq<Element>, locs: seq<nat>, e: Element, k: nat): (r: nat)
    requires k <= |locs| && forall j :: 0 <= j < |locs| ==> locs[j] < |table|
    ensures k <= r <= |locs| && (r < |locs| ==> table[locs[r]] == e) && forall j :: k <= j < r ==> table[locs[j]] != e
    decreases |locs| - k
  {
    if k == |locs| || table[locs[k]] == e then k else FindElement(table, locs, e, k + 1)
  }

  function FindLoc(locs: seq<nat>, last: int, k: nat): (r: nat)
    requires k <= |locs|
    ensures k <= r <= |locs| && (r < |locs| ==> locs[r] == last) && forall j :: k <= j < r ==> locs[j] != last
    decreases |locs| - k
  {
    if k == |locs| || locs[k] == last then k else FindLoc(locs, last, k + 1)
  }

  // --------------------------------------------------------------- the steps

  function Place(s: State, loc: nat, e: Element, epoch: bool): State
    requires loc < |s.table| == |s.flags| == |s.epochs|
  {
    s.(table := s.table[loc := e], flags := s.flags[loc := false], epochs := s.epochs[loc := epoch])
  }

  datatype Carried = Nothing | Carried(e: Element, epoch: bool)
  datatype Outcome = Outcome(state: State, dropped: Carried)

  /** The slot an element goes to: the first free one of its eight, else the one after the slot it
      came from (the second location, if it came from none). */
  function Target(cfg: Config, s: State, e: Element, last: int): (loc: nat)
    requires Wf(cfg) && Sized(cfg, s)
    ensures loc < cfg.size && loc in Locs(cfg, e)
  {
    var locs := Locs(cfg, e);
    var k := FindFree(s.flags, locs, 0);
    if k < 8 then locs[k] else locs[(1 + FindLoc(locs, last, 0)) % 8]
  }

  /** The displacement loop with `depth` rounds left, carrying `e`; `last` is the slot it came from. */
  function Displace(cfg: Config, s: State, e: Element, epoch: bool, last: int, depth: nat): (r: Outcome)
    requires Wf(cfg) && Sized(cfg, s)
    ensures Sized(cfg, r.state)
    decreases depth
  {
    if depth == 0 then Outcome(s, Carried(e, epoch))
    else
      var loc := Target(cfg, s, e, last);
      if s.flags[loc] then Outcome(Place(s, loc, e, epoch), Nothing)
      else Displace(cfg, Place(s, loc, e, epoch), s.table[loc], s.epochs[loc], loc, depth - 1)
  }

  lemma DisplaceStep(cfg: Config, s: State, e: Element, epoch: bool, last: int, depth: nat)
    requires Wf(cfg) && Sized(cfg, s) && depth > 0
    ensures var loc := Target(cfg, s, e, last);
      Displace(cfg, s, e, epoch, last, depth) ==
        if s.flags[loc] then Outcome(Place(s, loc, e, epoch), Nothing)
        else Displace(cfg, Place(s, loc, e, epoch), s.table[loc], s.epochs[loc], loc, depth - 1)
  {}

  /** `goal` is what the remaining rounds arrive at. */
  ghost predicate ToDo(cfg: Config, s: State, e: Element, epoch: bool, last: int, depth: nat, goal: Outcome)
    requires Wf(cfg) && Sized(cfg, s)
    decreases depth, 1
  {
    if depth == 0 then goal == Outcome(s, Carried(e, epoch)) else OneMore(cfg, s, e, epoch, last, depth, goal)
  }

  ghost predicate OneMore(cfg: Config, s: State, e: Element, epoch: bool, last: int, depth: nat, goal: Outcome)
    requires Wf(cfg) && Sized(cfg, s) && depth > 0
    decreases depth, 0
  {
    var loc := Target(cfg, s, e, last);
    if s.flags[loc] then goal == Outcome(Place(s, loc, e, epoch), Nothing)
    else ToDo(cfg, Place(s, loc, e, epoch), s.table[loc], s.epochs[loc], loc, depth - 1, goal)
  }

  lemma ToDoNext(cfg: Config, s: State, e: Element, epoch: bool, last: int, depth: nat, goal: Outcome)
    requires Wf(cfg) && Sized(cfg, s) && depth > 0 && ToDo(cfg, s, e, epoch, last, depth, goal)
    ensures OneMore(cfg, s, e, epoch, last, depth, goal)
  {}

  lemma {:induction false} ToDoMeans(
      cfg: Config, s: State, e: Element, epoch: bool, last: int, depth: nat, goal: Outcome)
    requires Wf(cfg) && Sized(cfg, s) && goal == Displace(cfg, s, e, epoch, last, depth)
    ensures ToDo(cfg, s, e, epoch, last, depth, goal)
    decreases depth
  {
    if depth > 0 {
      var loc := Target(cfg, s, e, last);
      DisplaceStep(cfg, s, e, epoch, last, depth);
      if !s.flags[loc] { ToDoMeans(cfg, Place(s, loc, e, epoch), s.table[loc], s.epochs[loc], loc, depth - 1, goal); }
      assert OneMore(cfg, s, e, epoch, last, depth, goal);
    }
  }

  /** How many hold. */
  function CountTrue(bits: seq<bool>): nat {
    if bits == [] then 0 else (if bits[0] then 1 else 0) + CountTrue(bits[1..])
  }

  /** Live slots of the current epoch. */
  function CurrentBits(flags: seq<bool>, epochs: seq<bool>): seq<bool>
    requires |flags| == |epochs|
  {
    seq(|flags|, i requires 0 <= i < |flags| => epochs[i] && !flags[i])
  }

  function Current(s: State): nat
    requires |s.flags| == |s.epochs|
  {
    CountTrue(CurrentBits(s.flags, s.epochs))
  }

  function Max(a: nat, b: nat): nat { if a < b then b else a }

  /** 45 per cent of the slots, in 32-bit arithmetic. */
  function EpochSize(size: nat): nat { 45 * size % 0x1_0000_0000 / 100 }

  /** The largest size whose product with 45 fits in 32 bits. */
  const EXACT_SIZES := 95443717

  /** The epoch is the 45 per cent the source asks for exactly up to that size. */
  lemma EpochSizeExact(size: nat)
    requires size < 0x1_0000_0000
    ensures EpochSize(size) == 45 * size / 100 <==> size <= EXACT_SIZES
    ensures size >= 2 ==> (Max(1, EpochSize(size)) == Max(1, 45 * size / 100) <==> size <= EXACT_SIZES)
  {
    if size > EXACT_SIZES { assert EpochSize(size) <= 0xffff_ffff / 100 < 45 * size / 100; }
  }

  /** One slot more and the epoch is a single insertion instead of 42949673. */
  lemma EpochSizeWraps()
    ensures Max(1, EpochSize(EXACT_SIZES + 1)) == 1 && 45 * (EXACT_SIZES + 1) / 100 == 42949673
  {}

  /** The discard flags when an epoch ends: what was already old becomes discardable. */
  function Aged(flags: seq<bool>, epochs: seq<bool>): seq<bool>
    requires |flags| == |epochs|
  {
    seq(|flags|, i requires 0 <= i < |flags| => flags[i] || !epochs[i])
  }

  function EpochCheck(cfg: Config, s: State): State
    requires Sized(cfg, s)
  {
    if s.counter != 0 then s.(counter := s.counter - 1)
    else
      var used := Current(s);
      if used >= cfg.epochSize then
        s.(flags := Aged(s.flags, s.epochs), epochs := seq(cfg.size, _ => false), counter := cfg.epochSize)
      else s.(counter := Max(1, Max(cfg.epochSize / 16, cfg.epochSize - used)))
  }

  function Store(cfg: Config, s: State, e: Element): Outcome
    requires Wf(cfg) && Sized(cfg, s)
  {
    var locs := Locs(cfg, e);
    var k := FindElement(s.table, locs, e, 0);
    if k < 8 then Outcome(Place(s, locs[k], e, true), Nothing)
    else Displace(cfg, s, e, true, -1, cfg.depthLimit)
  }

  function Inserted(cfg: Config, s: State, e: Element): Outcome
    requires Wf(cfg) && Sized(cfg, s)
  {
    Store(cfg, EpochCheck(cfg, s), e)
  }

  /** `contains`: does not look at the discard flags, and may set one. */
  function Found(cfg: Config, s: State, e: Element): bool
    requires Wf(cfg) && Sized(cfg, s)
  {
    FindElement(s.table, Locs(cfg, e), e, 0) < 8
  }

  function Erase(cfg: Config, s: State, e: Element): State
    requires Wf(cfg) && Sized(cfg, s)
  {
    var k := FindElement(s.table, Locs(cfg, e), e, 0);
    if k < 8 then s.(flags := s.flags[Locs(cfg, e)[k] := true]) else s
  }

  // ---------------------------------------------------------------- counting

  lemma {:induction false} CountUpdate(bits: seq<bool>, i: nat, b: bool)
    requires i < |bits|
    ensures CountTrue(bits[i := b]) + (if bits[i] then 1 else 0) == CountTrue(bits) + if b then 1 else 0
    decreases |bits|
  {
    if i == 0 {
      assert bits[0 := b][1..] == bits[1..];
    } else {
      assert bits[i := b][1..] == bits[1..][i - 1 := b];
      CountUpdate(bits[1..], i - 1, b);
    }
  }

  lemma {:induction false} CountNone(bits: seq<bool>)
    ensures CountTrue(bits) == 0 <==> forall i :: 0 <= i < |bits| ==> !bits[i]
  {
    if bits != [] {
      CountNone(bits[1..]);
      assert bits == [bits[0]] + bits[1..];
    }
  }

  /** The live slots holding `x` with an epoch. */
  function LiveBits(s: State, x: Element, q: bool): seq<bool>
    requires |s.table| == |s.flags| == |s.epochs|
  {
    seq(|s.table|, i requires 0 <= i < |s.table| => !s.flags[i] && s.table[i] == x && s.epochs[i] == q)
  }

  function Live(s: State, x: Element, q: bool): nat
    requires |s.table| == |s.flags| == |s.epochs|
  {
    CountTrue(LiveBits(s, x, q))
  }

  function One(b: bool): nat { if b then 1 else 0 }

  /** What writing one slot does to the two counts. */
  lemma PlaceLive(s: State, loc: nat, e: Element, epoch: bool, x: Element, q: bool)
    requires loc < |s.table| == |s.flags| == |s.epochs|
    ensures Live(Place(s, loc, e, epoch), x, q) + One(!s.flags[loc] && s.table[loc] == x && s.epochs[loc] == q)
         == Live(s, x, q) + One(x == e && q == epoch)
  {
    assert LiveBits(Place(s, loc, e, epoch), x, q) == LiveBits(s, x, q)[loc := x == e && q == epoch];
    CountUpdate(LiveBits(s, x, q), loc, x == e && q == epoch);
  }

  lemma PlaceCurrent(s: State, loc: nat, e: Element, epoch: bool)
    requires loc < |s.table| == |s.flags| == |s.epochs|
    ensures Current(Place(s, loc, e, epoch)) + One(s.epochs[loc] && !s.flags[loc]) == Current(s) + One(epoch)
  {
    var t := Place(s, loc, e, epoch);
    assert CurrentBits(t.flags, t.epochs) == CurrentBits(s.flags, s.epochs)[loc := epoch];
    CountUpdate(CurrentBits(s.flags, s.epochs), loc, epoch);
  }

  // --------------------------------------------------------------- invariant

  predicate Holds(s: State, i: int, x: Element) {
    |s.table| == |s.flags| == |s.epochs| && 0 <= i < |s.table| && !s.flags[i] && s.table[i] == x
  }

  /** A live element is where a search for it arrives: at one of its own hash locations, and no
      discarded copy of it comes before. */
  predicate SlotOk(cfg: Config, s: State, i: int, x: Element) {
    && Wf(cfg) && Sized(cfg, s)
    && var k := FindElement(s.table, Locs(cfg, x), x, 0);
       k < 8 && Locs(cfg, x)[k] == i
  }

  ghost predicate Placed(cfg: Config, s: State) {
    Wf(cfg) && Sized(cfg, s) && forall i, x :: Holds(s, i, x) ==> SlotOk(cfg, s, i, x)
  }

  ghost predicate Absent(s: State, x: Element) { forall i :: !Holds(s, i, x) }

  /** Live elements sit at one of their own locations, are found, and are live only once. */
  lemma LiveFound(cfg: Config, s: State, i: nat, j: nat, x: Element)
    requires Placed(cfg, s) && Holds(s, i, x)
    ensures i in Locs(cfg, x) && Found(cfg, s, x)
    ensures Holds(s, j, x) ==> i == j
  {
    assert SlotOk(cfg, s, i, x);
    assert Holds(s, j, x) ==> SlotOk(cfg, s, j, x);
  }

  lemma LiveHolds(s: State, x: Element, q: bool)
    requires |s.table| == |s.flags| == |s.epochs|
    ensures Live(s, x, q) > 0 <==> exists i :: Holds(s, i, x) && s.epochs[i] == q
  {
    var bits := LiveBits(s, x, q);
    CountNone(bits);
    forall i | 0 <= i < |s.table| ensures bits[i] <==> Holds(s, i, x) && s.epochs[i] == q {}
  }

  /** An element that is not found is not live. */
  lemma NotFoundAbsent(cfg: Config, s: State, x: Element)
    requires Placed(cfg, s) && !Found(cfg, s, x)
    ensures Absent(s, x)
  {
    forall i ensures !Holds(s, i, x) {
      assert Holds(s, i, x) ==> SlotOk(cfg, s, i, x);
    }
  }

  /** Writing a slot with another element does not change where a search that passes it by arrives. */
  lemma {:induction false} SearchPasses(table: seq<Element>, locs: seq<nat>, x: Element, loc: nat, e: Element, k: nat)
    requires k <= |locs| && loc < |table| && x != e && forall j :: 0 <= j < |locs| ==> locs[j] < |table|
    requires var r := FindElement(table, locs, x, k); r < |locs| && locs[r] != loc
    ensures FindElement(table[loc := e], locs, x, k) == FindElement(table, locs, x, k)
    decreases |locs| - k
  {
    if table[locs[k]] != x { SearchPasses(table, locs, x, loc, e, k + 1); }
  }

  /** No location before the target is discardable. */
  lemma TargetFirst(cfg: Config, s: State, e: Element, last: int, j: nat, k: nat)
    requires Wf(cfg) && Sized(cfg, s) && j <= k < 8 && Locs(cfg, e)[k] == Target(cfg, s, e, last)
    requires Locs(cfg, e)[j] != Target(cfg, s, e, last)
    requires forall m :: 0 <= m < k ==> Locs(cfg, e)[m] != Target(cfg, s, e, last)
    ensures !s.flags[Locs(cfg, e)[j]]
  {}

  /** After writing, a search for the element arrives at its target. */
  lemma TargetFound(cfg: Config, s: State, e: Element, epoch: bool, last: int)
    requires Placed(cfg, s) && Absent(s, e)
    ensures var loc := Target(cfg, s, e, last); SlotOk(cfg, Place(s, loc, e, epoch), loc, e)
  {
    var loc := Target(cfg, s, e, last);
    var t, locs := Place(s, loc, e, epoch), Locs(cfg, e);
    var k := FindLoc(locs, loc, 0);
    var r := FindElement(t.table, locs, e, 0);
    assert t.table[locs[k]] == e;
    assert r <= k < 8;
    if locs[r] != loc {
      TargetFirst(cfg, s, e, last, r, k);
      assert Holds(s, locs[r], e);
    }
  }

  lemma PlaceKeeps(cfg: Config, s: State, loc: nat, e: Element, epoch: bool)
    requires Placed(cfg, s) && loc < cfg.size && SlotOk(cfg, Place(s, loc, e, epoch), loc, e)
    requires forall i :: i != loc ==> !Holds(s, i, e)
    ensures Placed(cfg, Place(s, loc, e, epoch))
    ensures !s.flags[loc] && s.table[loc] != e ==> Absent(Place(s, loc, e, epoch), s.table[loc])
  {
    var t := Place(s, loc, e, epoch);
    forall i, x | Holds(t, i, x) ensures SlotOk(cfg, t, i, x) && (i != loc ==> Holds(s, i, x)) {
      if i != loc {
        assert Holds(s, i, x);
        assert SlotOk(cfg, s, i, x);
        SearchPasses(s.table, Locs(cfg, x), x, loc, e, 0);
      }
    }
    if !s.flags[loc] {
      var x := s.table[loc];
      assert Holds(s, loc, x) && SlotOk(cfg, s, loc, x);
      forall i | x != e ensures !Holds(t, i, x) {
        assert i != loc && Holds(t, i, x) ==> Holds(s, i, x) && SlotOk(cfg, s, i, x);
      }
    }
  }

  // ------------------------------------------------- what insertion preserves

  lemma {:induction false} DisplaceKeeps(cfg: Config, s: State, e: Element, epoch: bool, last: int, depth: nat)
    requires Placed(cfg, s) && Absent(s, e)
    ensures var r := Displace(cfg, s, e, epoch, last, depth);
      Placed(cfg, r.state) && r.state.counter == s.counter && (r.dropped.Carried? ==> Absent(r.state, r.dropped.e))
    decreases depth
  {
    if depth > 0 {
      var loc := Target(cfg, s, e, last);
      TargetFound(cfg, s, e, epoch, last);
      PlaceKeeps(cfg, s, loc, e, epoch);
      if !s.flags[loc] {
        assert Holds(s, loc, s.table[loc]);
        DisplaceKeeps(cfg, Place(s, loc, e, epoch), s.table[loc], s.epochs[loc], loc, depth - 1);
      }
    }
  }

  predicate Is(c: Carried, x: Element, q: bool) { c == Carried(x, q) }

  /** Displacement loses at most the entry it drops: live entries with their epochs, counted, are
      those there were and the one carried in. */
  lemma {:induction false} DisplaceLive(
    cfg: Config, s: State, e: Element, epoch: bool, last: int, depth: nat, x: Element, q: bool, r: Outcome)
    requires Wf(cfg) && Sized(cfg, s) && r == Displace(cfg, s, e, epoch, last, depth)
    ensures Live(r.state, x, q) + One(Is(r.dropped, x, q)) == Live(s, x, q) + One(x == e && q == epoch)
    decreases depth
  {
    if depth > 0 {
      var loc := Target(cfg, s, e, last);
      DisplaceStep(cfg, s, e, epoch, last, depth);
      PlaceLive(s, loc, e, epoch, x, q);
      if !s.flags[loc] {
        DisplaceLive(cfg, Place(s, loc, e, epoch), s.table[loc], s.epochs[loc], loc, depth - 1, x, q, r);
      }
    }
  }

  lemma {:induction false} DisplaceCurrent(
    cfg: Config, s: State, e: Element, epoch: bool, last: int, depth: nat, r: Outcome)
    requires Wf(cfg) && Sized(cfg, s) && r == Displace(cfg, s, e, epoch, last, depth)
    ensures Current(r.state) + One(r.dropped.Carried? && r.dropped.epoch) == Current(s) + One(epoch)
    decreases depth
  {
    if depth > 0 {
      var loc := Target(cfg, s, e, last);
      DisplaceStep(cfg, s, e, epoch, last, depth);
      PlaceCurrent(s, loc, e, epoch);
      if !s.flags[loc] {
        DisplaceCurrent(cfg, Place(s, loc, e, epoch), s.table[loc], s.epochs[loc], loc, depth - 1, r);
      }
    }
  }

  /** A new element that finds no empty slot displaces the one at its second location; that is its
      first only if the two are one slot. */
  lemma FirstDisplaced(cfg: Config, s: State, e: Element)
    requires Wf(cfg) && Sized(cfg, s) && forall k :: 0 <= k < 8 ==> !s.flags[Locs(cfg, e)[k]]
    ensures Target(cfg, s, e, -1) == Locs(cfg, e)[1]
    ensures Target(cfg, s, e, -1) == Locs(cfg, e)[0] <==> Loc(cfg, e, 0) == Loc(cfg, e, 1)
  {
    assert FindLoc(Locs(cfg, e), -1, 0) == 8;
  }

  // ------------------------------------------------------------------ epochs

  predicate Ages(cfg: Config, s: State)
    requires Sized(cfg, s)
  {
    s.counter == 0 && Current(s) >= cfg.epochSize
  }

  /** A new epoch discards what was old and makes old what was current; otherwise nothing changes. */
  lemma EpochLive(cfg: Config, s: State, x: Element)
    requires Sized(cfg, s)
    ensures var t := EpochCheck(cfg, s);
      if Ages(cfg, s) then Live(t, x, true) == 0 && Live(t, x, false) == Live(s, x, true) && Current(t) == 0
      else Current(t) == Current(s) && forall q :: Live(t, x, q) == Live(s, x, q)
  {
    var t := EpochCheck(cfg, s);
    if Ages(cfg, s) {
      assert LiveBits(t, x, false) == LiveBits(s, x, true);
      CountNone(LiveBits(t, x, true));
      CountNone(CurrentBits(t.flags, t.epochs));
    } else {
      assert t == s.(counter := t.counter);
      forall q ensures Live(t, x, q) == Live(s, x, q) { assert LiveBits(t, x, q) == LiveBits(s, x, q); }
    }
  }

  lemma EpochKeeps(cfg: Config, s: State)
    requires Placed(cfg, s)
    ensures Placed(cfg, EpochCheck(cfg, s)) && EpochCheck(cfg, s).table == s.table
  {
    var t := EpochCheck(cfg, s);
    forall i, x | Holds(t, i, x) ensures SlotOk(cfg, t, i, x) {
      assert Holds(s, i, x) && SlotOk(cfg, s, i, x);
    }
  }

  // --------------------------------------------------------------- insertion

  lemma StoreKeeps(cfg: Config, s: State, e: Element)
    requires Placed(cfg, s)
    ensures var r := Store(cfg, s, e);
      Placed(cfg, r.state) && r.state.counter == s.counter && (r.dropped.Carried? ==> Absent(r.state, r.dropped.e))
  {
    if Found(cfg, s, e) {
      var loc := Locs(cfg, e)[FindElement(s.table, Locs(cfg, e), e, 0)];
      assert s.table[loc := e] == s.table;
      forall i | i != loc ensures !Holds(s, i, e) { assert Holds(s, i, e) ==> SlotOk(cfg, s, i, e); }
      PlaceKeeps(cfg, s, loc, e, true);
    } else {
      NotFoundAbsent(cfg, s, e);
      DisplaceKeeps(cfg, s, e, true, -1, cfg.depthLimit);
    }
  }

  /** Storing: of the live entries, with their epochs, at most the dropped one is lost, and the
      stored element is live in the current epoch unless it is itself the one dropped. */
  lemma StoreLive(cfg: Config, s: State, e: Element, x: Element, q: bool)
    requires Placed(cfg, s)
    ensures var r := Store(cfg, s, e);
      Live(r.state, x, q) + One(Is(r.dropped, x, q)) == if x != e then Live(s, x, q) else One(q)
  {
    if Found(cfg, s, e) {
      var loc := Locs(cfg, e)[FindElement(s.table, Locs(cfg, e), e, 0)];
      PlaceLive(s, loc, e, true, x, q);
      if x == e { OnlyHere(cfg, s, loc, e, q); }
    } else {
      DisplaceLive(cfg, s, e, true, -1, cfg.depthLimit, x, q, Store(cfg, s, e));
      NotFoundAbsent(cfg, s, e);
      if x == e { LiveHolds(s, e, q); }
    }
  }

  lemma OnlyHere(cfg: Config, s: State, loc: nat, e: Element, q: bool)
    requires Placed(cfg, s) && loc < cfg.size && SlotOk(cfg, s, loc, e)
    ensures Live(s, e, q) == One(Holds(s, loc, e) && s.epochs[loc] == q)
  {
    var bits := LiveBits(s, e, q);
    forall i | 0 <= i < |bits| && i != loc ensures !bits[i] {
      assert Holds(s, i, e) ==> SlotOk(cfg, s, i, e);
    }
    CountUpdate(bits, loc, false);
    CountNone(bits[loc := false]);
  }

  lemma StoreCurrent(cfg: Config, s: State, e: Element)
    requires Wf(cfg) && Sized(cfg, s)
    ensures Current(Store(cfg, s, e).state) <= Current(s) + 1
  {
    if Found(cfg, s, e) {
      PlaceCurrent(s, Locs(cfg, e)[FindElement(s.table, Locs(cfg, e), e, 0)], e, true);
    } else {
      DisplaceCurrent(cfg, s, e, true, -1, cfg.depthLimit, Store(cfg, s, e));
    }
  }

  /** Live entries of the current epoch, plus the insertions before the next scan, stay bounded. */
  predicate Bounded(cfg: Config, s: State)
    requires Sized(cfg, s)
  {
    Current(s) + s.counter <= cfg.epochSize + Max(1, cfg.epochSize / 16)
  }

  lemma InsertBounded(cfg: Config, s: State, e: Element)
    requires Placed(cfg, s) && Bounded(cfg, s)
    ensures Bounded(cfg, Inserted(cfg, s, e).state)
  {
    EpochLive(cfg, s, e);
    EpochKeeps(cfg, s);
    StoreCurrent(cfg, EpochCheck(cfg, s), e);
    StoreKeeps(cfg, EpochCheck(cfg, s), e);
  }

  /** Live with that epoch flag, at one of its own locations, and found by a search. */
  ghost predicate LiveAt(cfg: Config, s: State, x: Element, q: bool)
    requires Wf(cfg) && Sized(cfg, s)
  {
    Found(cfg, s, x) && exists i :: Holds(s, i, x) && s.epochs[i] == q && i in Locs(cfg, x)
  }

  /** What the epoch check that starts an insertion leaves live: everything as it was, or, when an
      epoch ends, only what was current, now as old. */
  ghost predicate Survives(cfg: Config, s: State, x: Element, q: bool)
    requires Wf(cfg) && Sized(cfg, s)
  {
    if Ages(cfg, s) then !q && LiveAt(cfg, s, x, true) else LiveAt(cfg, s, x, q)
  }

  lemma LiveIsLiveAt(cfg: Config, s: State, x: Element, q: bool)
    requires Placed(cfg, s)
    ensures Live(s, x, q) > 0 <==> LiveAt(cfg, s, x, q)
  {
    LiveHolds(s, x, q);
    if Live(s, x, q) > 0 {
      var i :| Holds(s, i, x) && s.epochs[i] == q;
      LiveFound(cfg, s, i, i, x);
    }
  }

  /** One insertion: of what survives the epoch check at most the dropped entry leaves, every other
      one is found with its epoch flag, the new element is found as current unless it was itself
      dropped, and nothing else becomes live. */
  lemma InsertLaw(cfg: Config, s: State, e: Element, x: Element, q: bool)
    requires Inv(cfg, s)
    ensures var r := Inserted(cfg, s, e);
      && Inv(cfg, r.state)
      && (LiveAt(cfg, r.state, x, q) <==> (if x == e then q else Survives(cfg, s, x, q)) && !Is(r.dropped, x, q))
  {
    var m, r := EpochCheck(cfg, s), Inserted(cfg, s, e);
    StepKeeps(cfg, s, Op.Put(e));
    EpochKeeps(cfg, s);
    EpochLive(cfg, s, x);
    StoreLive(cfg, m, e, x, q);
    LiveIsLiveAt(cfg, s, x, q);
    LiveIsLiveAt(cfg, s, x, true);
    LiveIsLiveAt(cfg, r.state, x, q);
    if x != e { LiveOnce(cfg, m, x, q); }
  }

  lemma LiveOnce(cfg: Config, s: State, x: Element, q: bool)
    requires Placed(cfg, s)
    ensures Live(s, x, q) <= 1
  {
    LiveHolds(s, x, q);
    if Live(s, x, q) > 0 {
      var i :| Holds(s, i, x) && s.epochs[i] == q;
      assert SlotOk(cfg, s, i, x);
      OnlyHere(cfg, s, i, x, q);
    }
  }

  lemma EraseKeeps(cfg: Config, s: State, e: Element)
    requires Placed(cfg, s) && Bounded(cfg, s)
    ensures Placed(cfg, Erase(cfg, s, e)) && Bounded(cfg, Erase(cfg, s, e))
    ensures forall x :: Found(cfg, Erase(cfg, s, e), x) <==> Found(cfg, s, x)
  {
    var t := Erase(cfg, s, e);
    forall i, x | Holds(t, i, x) ensures SlotOk(cfg, t, i, x) { assert Holds(s, i, x) && SlotOk(cfg, s, i, x); }
    if Found(cfg, s, e) {
      var loc := Locs(cfg, e)[FindElement(s.table, Locs(cfg, e), e, 0)];
      assert CurrentBits(t.flags, t.epochs) == CurrentBits(s.flags, s.epochs)[loc := false];
      CountUpdate(CurrentBits(s.flags, s.epochs), loc, false);
    }
  }

  // -------------------------------------------------------------------- runs

  datatype Op = Put(e: Element) | Take(e: Element)

  function Step(cfg: Config, s: State, op: Op): State
    requires Wf(cfg) && Sized(cfg, s)
  {
    match op
    case Put(e) => Inserted(cfg, s, e).state
    case Take(e) => Erase(cfg, s, e)
  }

  ghost predicate Inv(cfg: Config, s: State) { Placed(cfg, s) && Bounded(cfg, s) }

  lemma StepKeeps(cfg: Config, s: State, op: Op)
    requires Inv(cfg, s)
    ensures Inv(cfg, Step(cfg, s, op))
  {
    match op
    case Put(e) =>
      InsertBounded(cfg, s, e);
      EpochKeeps(cfg, s);
      StoreKeeps(cfg, EpochCheck(cfg, s), e);
    case Take(e) => EraseKeeps(cfg, s, e);
  }

  /** After `setup`: every slot discardable, a whole epoch to wait. */
  predicate Fresh(cfg: Config, s: State) {
    Wf(cfg) && Sized(cfg, s) && s.counter == cfg.epochSize && forall i :: 0 <= i < cfg.size ==>
        s.flags[i] &&
        !s.epochs[i]
  }

  lemma FreshOk(cfg: Config, s: State)
    requires Fresh(cfg, s)
    ensures Inv(cfg, s)
  {
    CountNone(CurrentBits(s.flags, s.epochs));
  }

  function Run(cfg: Config, s: State, ops: seq<Op>): State
    requires Wf(cfg) && Sized(cfg, s)
    decreases |ops|
  {
    if ops == [] then s else Run(cfg, Step(cfg, s, ops[0]), ops[1..])
  }

  /** Every state reachable from a fresh cache is well placed and bounded. */
  lemma {:induction false} EveryRun(cfg: Config, s: State, ops: seq<Op>)
    requires Inv(cfg, s)
    ensures Inv(cfg, Run(cfg, s, ops))
    decreases |ops|
  {
    if ops != [] {
      StepKeeps(cfg, s, ops[0]);
      EveryRun(cfg, Step(cfg, s, ops[0]), ops[1..]);
    }
  }

  /** A cache of 100 slots, of which every element may use only the first and the last. */
  function TwoEnds(depthLimit: nat): Config {
    Config((k: nat, e: Element) => if k == 0 then 0 else 0xffff_ffff, 100, 45, depthLimit)
  }

  lemma EndsAre(depthLimit: nat, e: Element)
    ensures Locs(TwoEnds(depthLimit), e) == [0, 99, 99, 99, 99, 99, 99, 99]
  {}

  /** An element goes to the first of the two ends that is free. */
  lemma PutAtEnd(depthLimit: nat, s: State, e: Element, k: nat)
    requires depthLimit > 0 && Sized(TwoEnds(depthLimit), s) && s.counter > 0
    requires s.table[0] != e && s.table[99] != e && (k == 0 || (k == 99 && !s.flags[0])) && s.flags[k]
    ensures Step(TwoEnds(depthLimit), s, Put(e)) == Place(s.(counter := s.counter - 1), k, e, true)
  {
    var cfg := TwoEnds(depthLimit);
    var t := s.(counter := s.counter - 1);
    EndsAre(depthLimit, e);
    assert FindElement(t.table, Locs(cfg, e), e, 0) == 8;
    assert Target(cfg, t, e, -1) == k;
    DisplaceStep(cfg, t, e, true, -1, depthLimit);
  }

  /** After two insertions into a fresh cache a third one displaces what sits at its second location. */
  lemma SecondDisplaced(depthLimit: nat, s: State) returns (t: State)
    requires depthLimit > 0 && Fresh(TwoEnds(depthLimit), s) && s.table == seq(100, _ => 0)
    ensures t == EpochCheck(TwoEnds(depthLimit), Run(TwoEnds(depthLimit), s, [Put(1), Put(2)]))
    ensures forall k :: 0 <= k < 8 ==> !t.flags[Locs(TwoEnds(depthLimit), 3)[k]]
    ensures Target(TwoEnds(depthLimit), t, 3, -1) == 99 != Loc(TwoEnds(depthLimit), 3, 0)
    ensures t.table[99] == 2 && t.table[0] == 1
  {
    var cfg := TwoEnds(depthLimit);
    PutAtEnd(depthLimit, s, 1, 0);
    var one := Step(cfg, s, Put(1));
    PutAtEnd(depthLimit, one, 2, 99);
    var two := Step(cfg, one, Put(2));
    assert [Put(1), Put(2)][1..] == [Put(2)] && [Put(2)][1..] == [];
    assert Run(cfg, two, []) == two && Run(cfg, one, [Put(2)]) == two;
    t := EpochCheck(cfg, two);
    EndsAre(depthLimit, 3);
    FirstDisplaced(cfg, t, 3);
  }

  // --------------------------------------------------------------- the object

  class Cache {
    const cfg: Config
    var table: seq<Element>
    var collectionFlags: seq<bool>
    var epochFlags: seq<bool>
    var epochHeuristicCounter: nat

    function Value(): State
      reads this
    {
      State(table, collectionFlags, epochFlags, epochHeuristicCounter)
    }

    ghost predicate Valid()
      reads this
    {
      Inv(cfg, Value())
    }

    /** `setup`: at least two slots, and an epoch of 45 per cent of them unless the 32-bit product
        wraps around. */
    constructor (hash: (nat, Element) -> uint32, newSize: uint32, depthLimit: nat)
      ensures Valid() && Fresh(cfg, Value()) && cfg.hash == hash
      ensures cfg.size == Max(2, newSize as nat) && cfg.depthLimit == depthLimit
      ensures cfg.epochSize == Max(1, 45 * cfg.size / 100) <==> cfg.size <= EXACT_SIZES
      ensures cfg.epochSize == Max(1, EpochSize(cfg.size))
    {
      var size := Max(2, newSize as nat);
      EpochSizeExact(size);
      cfg := Config(hash, size, Max(1, EpochSize(size)), depthLimit);
      table := seq(size, _ => 0);
      collectionFlags := seq(size, _ => true);
      epochFlags := seq(size, _ => false);
      epochHeuristicCounter := Max(1, EpochSize(size));
      new;
      FreshOk(cfg, Value());
    }

    method CountCurrent() returns (used: nat)
      requires Sized(cfg, Value())
      ensures used == Current(Value())
    {
      used := 0;
      ghost var bits := CurrentBits(collectionFlags, epochFlags);
      var i := cfg.size;
      assert bits[i..] == [];
      while i > 0
        invariant i <= cfg.size && used == CountTrue(bits[i..])
      {
        i := i - 1;
        if epochFlags[i] && !collectionFlags[i] { used := used + 1; }
        assert bits[i..][1..] == bits[i + 1..];
      }
      assert bits[0..] == bits;
    }

    method Age()
      requires Sized(cfg, Value())
      modifies this`collectionFlags, this`epochFlags
      ensures collectionFlags == Aged(old(collectionFlags), old(epochFlags))
      ensures epochFlags == seq(cfg.size, _ => false)
    {
      var i := 0;
      while i < cfg.size
        invariant i <= cfg.size && Sized(cfg, Value())
        invariant forall j :: 0 <= j < i ==>
            !epochFlags[j] &&
            collectionFlags[j] == (old(collectionFlags)[j] || !old(epochFlags)[j])
        invariant forall j :: i <= j < cfg.size ==>
            epochFlags[j] == old(epochFlags)[j] &&
            collectionFlags[j] == old(collectionFlags)[j]
      {
        if epochFlags[i] { epochFlags := epochFlags[i := false]; }
        else { collectionFlags := collectionFlags[i := true]; }
        i := i + 1;
      }
    }

    method CheckEpoch()
      requires Sized(cfg, Value())
      modifies this`collectionFlags, this`epochFlags, this`epochHeuristicCounter
      ensures Value() == EpochCheck(cfg, old(Value()))
    {
      if epochHeuristicCounter != 0 {
        epochHeuristicCounter := epochHeuristicCounter - 1;
        return;
      }
      var used := CountCurrent();
      if used >= cfg.epochSize {
        Age();
        epochHeuristicCounter := cfg.epochSize;
      } else {
        epochHeuristicCounter := Max(1, Max(cfg.epochSize / 16, cfg.epochSize - used));
      }
    }

    method Put(loc: nat, e: Element, epoch: bool)
      requires Sized(cfg, Value()) && loc < cfg.size
      modifies this`table, this`collectionFlags, this`epochFlags
      ensures Value() == Place(old(Value()), loc, e, epoch)
    {
      table, collectionFlags, epochFlags := table[loc := e], collectionFlags[loc := false], epochFlags[loc := epoch];
    }

    /** An empty slot for `e` if there is one, else the slot to swap with. */
    method Choose(e: Element, last: int) returns (isFree: bool, loc: nat)
      requires Wf(cfg) && Sized(cfg, Value())
      ensures loc == Target(cfg, Value(), e, last) && loc < cfg.size && isFree == collectionFlags[loc]
    {
      var locs := Locs(cfg, e);
      var k := FindFree(collectionFlags, locs, 0);
      isFree := k < 8;
      loc := if isFree then locs[k] else locs[(1 + FindLoc(locs, last, 0)) % 8];
    }

    /** One round: `e` finds an empty slot, or takes the place of another element. */
    method Round(e: Element, epoch: bool, last: int, ghost depth: nat, ghost goal: Outcome)
      returns (done: bool, evicted: Element, evictedEpoch: bool, loc: nat, ghost t: State)
      requires Wf(cfg) && Sized(cfg, Value()) && depth > 0 && ToDo(cfg, Value(), e, epoch, last, depth, goal)
      modifies this`table, this`collectionFlags, this`epochFlags
      ensures t == Value() && Sized(cfg, t)
      ensures done ==> goal == Outcome(t, Nothing)
      ensures !done ==> ToDo(cfg, t, evicted, evictedEpoch, loc, depth - 1, goal)
    {
      ToDoNext(cfg, Value(), e, epoch, last, depth, goal);
      done, loc := Choose(e, last);
      evicted, evictedEpoch := table[loc], epochFlags[loc];
      Put(loc, e, epoch);
      t := Value();
    }

    /** The displacement rounds of `insert`, after a search has not found the element. */
    method Rounds(e0: Element, ghost goal: Outcome) returns (ghost dropped: Carried)
      requires Wf(cfg) && Sized(cfg, Value()) && ToDo(cfg, Value(), e0, true, -1, cfg.depthLimit, goal)
      modifies this`table, this`collectionFlags, this`epochFlags
      ensures Outcome(Value(), dropped) == goal
    {
      var e, lastLoc: int, lastEpoch := e0, -1, true;
      var left := cfg.depthLimit;
      ghost var t := Value();
      while left > 0
        invariant t == Value() && Sized(cfg, t) && ToDo(cfg, t, e, lastEpoch, lastLoc, left, goal)
      {
        var done;
        done, e, lastEpoch, lastLoc, t := Round(e, lastEpoch, lastLoc, left, goal);
        if done { return Nothing; }
        left := left - 1;
      }
      dropped := Carried(e, lastEpoch);
    }

    method Shift(e0: Element) returns (ghost dropped: Carried)
      requires Wf(cfg) && Sized(cfg, Value())
      modifies this`table, this`collectionFlags, this`epochFlags
      ensures Outcome(Value(), dropped) == Displace(cfg, old(Value()), e0, true, -1, cfg.depthLimit)
    {
      ghost var goal := Displace(cfg, Value(), e0, true, -1, cfg.depthLimit);
      ToDoMeans(cfg, Value(), e0, true, -1, cfg.depthLimit, goal);
      dropped := Rounds(e0, goal);
    }

    /** `insert`; what it drops is reported for the proof only. */
    method Insert(e: Element) returns (ghost dropped: Carried)
      requires Valid()
      modifies this
      ensures Valid() && Outcome(Value(), dropped) == Inserted(cfg, old(Value()), e)
    {
      StepKeeps(cfg, Value(), Op.Put(e));
      CheckEpoch();
      var locs := Locs(cfg, e);
      var k := FindElement(table, locs, e, 0);
      if k < 8 {
        Put(locs[k], e, true);
        dropped := Nothing;
      } else {
        dropped := Shift(e);
      }
    }

    method Contains(e: Element, erase: bool) returns (found: bool)
      requires Valid()
      modifies this`collectionFlags
      ensures Valid() && found == Found(cfg, old(Value()), e)
      ensures Value() == if erase then Erase(cfg, old(Value()), e) else old(Value())
    {
      EraseKeeps(cfg, Value(), e);
      var locs := Locs(cfg, e);
      var k := FindElement(table, locs, e, 0);
      found := k < 8;
      if found && erase { collectionFlags := collectionFlags[locs[k] := true]; }
    }
  }
}
