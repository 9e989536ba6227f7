/** The unspent-output views: a database at the bottom and any number of write-back
    caches stacked on it.  Views are numbered from 0 (the database); cache `i` sits on
    view `i` and presents view `i + 1`. */
module Coins {
  import opened Common

  datatype OutPoint = OutPoint(hash: nat, n: nat)

  const OP_RETURN := 0x6a
  const MAX_SCRIPT_SIZE := 10000

  predicate IsUnspendable(script: seq<nat>) {
    (|script| > 0 && script[0] == OP_RETURN) || |script| > MAX_SCRIPT_SIZE
  }

  datatype Coin = Coin(nValue: int, script: seq<nat>, coinBase: bool, height: nat) {
    predicate IsSpent() { nValue == -1 }
  }

  /** The coin left by `Clear` and by the default constructor. */
  const EMPTY_COIN := Coin(-1, [], false, 0)

  datatype Entry = Entry(coin: Coin, isDirty: bool, isFresh: bool)

  type CoinsMap = map<OutPoint, Entry>
  type Utxos = map<OutPoint, Coin>

  datatype Stack = Stack(db: Utxos, caches: seq<CoinsMap>)

  // ---------------------------------------------------------------- meaning

  function Lookup(m: Utxos, o: OutPoint): Option<Coin> {
    if o in m then Some(m[o]) else None
  }

  function EntryAt(c: CoinsMap, o: OutPoint): Option<Entry> {
    if o in c then Some(c[o]) else None
  }

  function AsOption(c: Coin): Option<Coin> {
    if c.IsSpent() then None else Some(c)
  }

  /** Everything the stack holds about one outpoint. */
  datatype Column = Column(db: Option<Coin>, entries: seq<Option<Entry>>)

  function Col(s: Stack, o: OutPoint): Column {
    Column(Lookup(s.db, o), seq(|s.caches|, i requires 0 <= i < |s.caches| => EntryAt(s.caches[i], o)))
  }

  /** The coin view `k` shows: the topmost entry below `k`, else the database. */
  function ColView(c: Column, k: nat): Option<Coin>
    requires k <= |c.entries|
  {
    if k == 0 then c.db
    else if c.entries[k - 1].Some? then AsOption(c.entries[k - 1].value.coin)
    else ColView(c, k - 1)
  }

  function ViewAt(s: Stack, k: nat, o: OutPoint): Option<Coin>
    requires k <= |s.caches|
  {
    ColView(Col(s, o), k)
  }

  /** DIRTY: may differ from the parent view.  FRESH: the parent view has no such coin. */
  predicate EntryOk(e: Entry, below: Option<Coin>) {
    && (!e.isDirty ==> AsOption(e.coin) == below)
    && (e.isFresh ==> below.None?)
  }

  ghost predicate ColOk(c: Column) {
    && (c.db.Some? ==> !c.db.value.IsSpent())
    && forall i :: 0 <= i < |c.entries| && c.entries[i].Some? ==> EntryOk(c.entries[i].value, ColView(c, i))
  }

  /** The flags of every cache entry tell the truth about the view below it. */
  ghost predicate Valid(s: Stack) {
    forall o :: ColOk(Col(s, o))
  }

  // ------------------------------------------------------------- operations

  /** `GetCoin` through view `k`: a miss reads the base, whose own caches fill on the way. */
  function GetCoin(s: Stack, k: nat, o: OutPoint): (Stack, Option<Coin>)
    requires k <= |s.caches|
    decreases k, 0
  {
    if k == 0 then (s, Lookup(s.db, o))
    else
      var s' := FetchCoin(s, k - 1, o);
      (s', if o in s'.caches[k - 1] then AsOption(s'.caches[k - 1][o].coin) else None)
  }

  /** Bring `o` into cache `i` if the base has it. */
  function FetchCoin(s: Stack, i: nat, o: OutPoint): (s': Stack)
    requires i < |s.caches|
    ensures |s'.caches| == |s.caches|
    decreases i, 1
  {
    if o in s.caches[i] then s
    else
      var (s', found) := GetCoin(s, i, o);
      if found.None? then s'
      else s'.(caches := s'.caches[i := s'.caches[i][o := Entry(found.value, false, found.value.IsSpent())]])
  }

  datatype AddResult = Added(stack: Stack) | ReplacesUnspent

  /** `AddCoin` on the top cache. */
  function AddCoin(s: Stack, o: OutPoint, coin: Coin, possibleOverwrite: bool): AddResult
    requires |s.caches| > 0 && !coin.IsSpent()
  {
    if IsUnspendable(coin.script) then Added(s)
    else
      var top := |s.caches| - 1;
      var e := if o in s.caches[top] then s.caches[top][o] else Entry(EMPTY_COIN, false, false);
      if !possibleOverwrite && !e.coin.IsSpent() then ReplacesUnspent
      else
        var isFresh := !possibleOverwrite && !e.isDirty;
        Added(s.(caches := s.caches[top := s.caches[top][o := Entry(coin, true, e.isFresh || isFresh)]]))
  }

  /** `SpendCoin` on the top cache: the new stack, the coin moved out, the returned flag. */
  function SpendCoin(s: Stack, o: OutPoint): (Stack, Option<Coin>, bool)
    requires |s.caches| > 0
  {
    var top := |s.caches| - 1;
    var s' := FetchCoin(s, top, o);
    var c := s'.caches[top];
    if o !in c then (s', None, false)
    else
      var c' := if c[o].isFresh then c - {o} else c[o := Entry(EMPTY_COIN, true, false)];
      (s'.(caches := s'.caches[top := c']), Some(c[o].coin), true)
  }

  /** The "FRESH flag misapplied" case of `BatchWrite` for one entry. */
  predicate EntryMisapplied(child: Entry, parent: Option<Entry>) {
    child.isDirty && child.isFresh && parent.Some? && !parent.value.coin.IsSpent()
  }

  predicate Misapplied(child: CoinsMap, parent: CoinsMap) {
    exists o :: o in child && EntryMisapplied(child[o], EntryAt(parent, o))
  }

  /** What `BatchWrite` leaves in the parent for one outpoint of the child. */
  function MergeEntry(child: Entry, parent: Option<Entry>): Option<Entry> {
    if !child.isDirty then parent
    else match parent
      case None =>
        if child.isFresh && child.coin.IsSpent() then None
        else Some(Entry(child.coin, true, child.isFresh))
      case Some(p) =>
        if p.isFresh && child.coin.IsSpent() then None
        else Some(Entry(child.coin, true, p.isFresh))
  }

  function MergedAt(child: CoinsMap, parent: CoinsMap, o: OutPoint): Option<Entry> {
    if o in child then MergeEntry(child[o], EntryAt(parent, o)) else EntryAt(parent, o)
  }

  /** The parent after the whole child has been written into it. */
  function Merge(child: CoinsMap, parent: CoinsMap): CoinsMap {
    map o | o in child.Keys + parent.Keys && MergedAt(child, parent, o).Some? :: MergedAt(child, parent, o).value
  }

  /** The database after a `BatchWrite`: dirty spent entries are erased, dirty unspent ones written. */
  function WriteDb(child: CoinsMap, db: Utxos): Utxos {
    map o | o in child.Keys + db.Keys && WrittenAt(child, db, o).Some? :: WrittenAt(child, db, o).value
  }

  function WrittenAt(child: CoinsMap, db: Utxos, o: OutPoint): Option<Coin> {
    if o in child && child[o].isDirty then AsOption(child[o].coin) else Lookup(db, o)
  }

  datatype FlushResult = Flushed(stack: Stack) | FreshMisapplied

  /** `Flush` of cache `i` into its base. */
  function Flush(s: Stack, i: nat): FlushResult
    requires i < |s.caches|
  {
    if i == 0 then
      Flushed(Stack(WriteDb(s.caches[0], s.db), s.caches[0 := map[]]))
    else if Misapplied(s.caches[i], s.caches[i - 1]) then FreshMisapplied
    else Flushed(s.(caches := s.caches[i - 1 := Merge(s.caches[i], s.caches[i - 1])][i := map[]]))
  }

  function Uncache(s: Stack, i: nat, o: OutPoint): Stack
    requires i < |s.caches|
  {
    if o in s.caches[i] && !s.caches[i][o].isDirty && !s.caches[i][o].isFresh
    then s.(caches := s.caches[i := s.caches[i] - {o}])
    else s
  }

  // -------------------------------------------------- facts about one column

  /** Views at or below `k` depend on the entries below `k` only. */
  lemma {:induction false} ColViewBelow(c: Column, d: Column, k: nat)
    requires k <= |c.entries| && k <= |d.entries| && c.db == d.db
    requires forall i :: 0 <= i < k ==> c.entries[i] == d.entries[i]
    ensures ColView(c, k) == ColView(d, k)
  {
    if k > 0 { ColViewBelow(c, d, k - 1); }
  }

  /** Equal views at `k` and equal entries from `k` on give equal views above `k`. */
  lemma {:induction false} ColViewAbove(c: Column, d: Column, k: nat, j: nat)
    requires k <= j <= |c.entries| == |d.entries|
    requires ColView(c, k) == ColView(d, k)
    requires forall i :: k <= i < |c.entries| ==> c.entries[i] == d.entries[i]
    ensures ColView(c, j) == ColView(d, j)
  {
    if j > k { ColViewAbove(c, d, k, j - 1); }
  }

  lemma {:induction false} ColViewUnspent(c: Column, k: nat)
    requires ColOk(c) && k <= |c.entries|
    ensures ColView(c, k).Some? ==> !ColView(c, k).value.IsSpent()
  {
    if k > 0 && c.entries[k - 1].None? { ColViewUnspent(c, k - 1); }
  }

  ghost predicate SameColViews(c: Column, d: Column) {
    |c.entries| == |d.entries| && forall k :: 0 <= k <= |c.entries| ==> ColView(c, k) == ColView(d, k)
  }

  /** Replacing entry `i` changes no view below it, and none at all when view `i + 1` is kept. */
  lemma ColReplace(c: Column, i: nat, e: Option<Entry>)
    requires ColOk(c) && i < |c.entries|
    requires e.Some? ==> EntryOk(e.value, ColView(c, i))
    ensures var d := c.(entries := c.entries[i := e]);
      && (forall k :: 0 <= k <= i ==> ColView(d, k) == ColView(c, k))
      && ColView(d, i + 1) == (if e.Some? then AsOption(e.value.coin) else ColView(c, i))
      && (i + 1 == |c.entries| || ColView(d, i + 1) == ColView(c, i + 1) ==> ColOk(d))
      && (ColView(d, i + 1) == ColView(c, i + 1) ==> SameColViews(c, d))
  {
    var d := c.(entries := c.entries[i := e]);
    forall k | 0 <= k <= i ensures ColView(d, k) == ColView(c, k) { ColViewBelow(c, d, k); }
    if ColView(d, i + 1) == ColView(c, i + 1) {
      forall k | i < k <= |c.entries| ensures ColView(d, k) == ColView(c, k) { ColViewAbove(d, c, i + 1, k); }
    }
  }

  /** Flushing entry `i` into entry `i - 1` (or the database): the throw is impossible, view `i`
      becomes view `i + 1`, nothing else changes. */
  lemma ColFlush(c: Column, i: nat, d: Column)
    requires ColOk(c) && i < |c.entries| == |d.entries|
    requires forall j :: 0 <= j < |c.entries| && j != i && j != i - 1 ==> d.entries[j] == c.entries[j]
    requires d.entries[i].None?
    requires i == 0 ==>
      d.db == if c.entries[0].Some? && c.entries[0].value.isDirty then AsOption(c.entries[0].value.coin) else c.db
    requires i > 0 ==> d.db == c.db
    requires i > 0 ==>
      d.entries[i - 1] == if c.entries[i].Some? then MergeEntry(c.entries[i].value, c.entries[i - 1])
        else c.entries[i - 1]
    ensures ColOk(d)
    ensures forall k :: 0 <= k <= |c.entries| ==> ColView(d, k) == ColView(c, if k == i then i + 1 else k)
    ensures i > 0 && c.entries[i].Some? && c.entries[i - 1].Some? ==>
      !EntryMisapplied(c.entries[i].value, c.entries[i - 1])
  {
    forall k | 0 <= k < i ensures ColView(d, k) == ColView(c, k) { ColViewBelow(c, d, k); }
    ColViewUnspent(c, i);
    assert ColView(d, i) == ColView(c, i + 1);
    forall k | i < k <= |c.entries| ensures ColView(d, k) == ColView(c, k) { ColViewAbove(d, c, i + 1, k); }
  }

  // ------------------------------------------------------------------ reads

  ghost predicate SameElsewhere(s: Stack, t: Stack, o: OutPoint) {
    |s.caches| == |t.caches| && forall p :: p != o ==> Col(t, p) == Col(s, p)
  }

  /** Putting an entry at `o` into cache `i`, or removing it, touches one place of one column. */
  lemma SetEntry(s: Stack, i: nat, o: OutPoint, e: Option<Entry>)
    requires i < |s.caches|
    ensures var t := s.(caches := s.caches[i := if e.Some? then s.caches[i][o := e.value] else s.caches[i] - {o}]);
      && SameElsewhere(s, t, o)
      && Col(t, o) == Col(s, o).(entries := Col(s, o).entries[i := e])
  {}

  /** Reading through any view answers from the plain map and changes no view. */
  lemma {:induction false} GetCoinReads(s: Stack, k: nat, o: OutPoint)
    requires ColOk(Col(s, o)) && k <= |s.caches|
    ensures var (t, r) := GetCoin(s, k, o);
      && r == ViewAt(s, k, o)
      && SameElsewhere(s, t, o) && SameColViews(Col(s, o), Col(t, o)) && ColOk(Col(t, o))
      && forall j :: k <= j < |s.caches| ==> t.caches[j] == s.caches[j]
    decreases k, 0
  {
    if k > 0 { FetchCoinReads(s, k - 1, o); }
  }

  /** After a fetch the entry is there iff it was or the view has the coin, and it shows the view. */
  lemma {:induction false} FetchCoinReads(s: Stack, i: nat, o: OutPoint)
    requires ColOk(Col(s, o)) && i < |s.caches|
    ensures var t := FetchCoin(s, i, o);
      && SameElsewhere(s, t, o) && SameColViews(Col(s, o), Col(t, o)) && ColOk(Col(t, o))
      && (forall j :: i < j < |s.caches| ==> t.caches[j] == s.caches[j])
      && ViewAt(s, i + 1, o) == (if o in t.caches[i] then AsOption(t.caches[i][o].coin) else None)
      && (o in t.caches[i] <==> o in s.caches[i] || ViewAt(s, i + 1, o).Some?)
    decreases i, 1
  {
    var c := Col(s, o);
    assert c.entries[i] == EntryAt(s.caches[i], o);
    if o !in s.caches[i] {
      GetCoinReads(s, i, o);
      var (t, found) := GetCoin(s, i, o);
      if found.Some? {
        ColViewUnspent(c, i);
        var e := Some(Entry(found.value, false, found.value.IsSpent()));
        SetEntry(t, i, o, e);
        ColReplace(Col(t, o), i, e);
      }
    }
  }

  // ----------------------------------------------------------------- writes

  /** `AddCoin` is a map update on the top view, and keeps the flags truthful exactly when the
      caller's `possibleOverwrite` was honest; a dishonest call either throws or breaks FRESH. */
  lemma AddCoinUpdates(s: Stack, o: OutPoint, coin: Coin, possibleOverwrite: bool)
    requires ColOk(Col(s, o)) && |s.caches| > 0 && !coin.IsSpent()
    ensures var n := |s.caches|; var r := AddCoin(s, o, coin, possibleOverwrite);
      var honest := possibleOverwrite || IsUnspendable(coin.script) || ViewAt(s, n, o).None?;
      && (honest <==> r.Added? && ColOk(Col(r.stack, o)))
      && (r.ReplacesUnspent? <==> !honest && o in s.caches[n - 1])
      && (r.Added? ==>
            && SameElsewhere(s, r.stack, o)
            && (forall k :: 0 <= k < n ==> ViewAt(r.stack, k, o) == ViewAt(s, k, o))
            && ViewAt(r.stack, n, o) == if IsUnspendable(coin.script) then ViewAt(s, n, o) else Some(coin))
  {
    var n := |s.caches|;
    var c := Col(s, o);
    assert c.entries[n - 1] == EntryAt(s.caches[n - 1], o);
    var r := AddCoin(s, o, coin, possibleOverwrite);
    if !IsUnspendable(coin.script) && r.Added? {
      var e := r.stack.caches[n - 1][o];
      SetEntry(s, n - 1, o, Some(e));
      var d := Col(r.stack, o);
      assert d.entries[n - 1] == Some(e);
      forall k | 0 <= k < n ensures ColView(d, k) == ColView(c, k) { ColViewBelow(c, d, k); }
    }
  }

  /** `SpendCoin` deletes the outpoint from the top view and hands out the coin that was there. */
  lemma SpendCoinDeletes(s: Stack, o: OutPoint)
    requires ColOk(Col(s, o)) && |s.caches| > 0
    ensures var n := |s.caches|; var (t, moved, ok) := SpendCoin(s, o);
      && ColOk(Col(t, o)) && SameElsewhere(s, t, o)
      && (forall k :: 0 <= k < n ==> ViewAt(t, k, o) == ViewAt(s, k, o))
      && ViewAt(t, n, o).None?
      && ViewAt(s, n, o) == (if moved.Some? then AsOption(moved.value) else None)
      && (ok <==> ViewAt(s, n, o).Some? || o in s.caches[n - 1])
  {
    var n := |s.caches|;
    FetchCoinReads(s, n - 1, o);
    var f := FetchCoin(s, n - 1, o);
    assert Col(f, o).entries[n - 1] == EntryAt(f.caches[n - 1], o);
    if o in f.caches[n - 1] {
      var e := if f.caches[n - 1][o].isFresh then None else Some(Entry(EMPTY_COIN, true, false));
      SetEntry(f, n - 1, o, e);
      ColReplace(Col(f, o), n - 1, e);
    }
  }

  /** Spending twice reports success twice; the second time the coin handed out is a spent one. */
  lemma SpentTwice(o: OutPoint, coin: Coin)
    requires !coin.IsSpent()
    ensures var (t, first, ok) := SpendCoin(Stack(map[o := coin], [map[]]), o);
      && ok && first == Some(coin) && |t.caches| == 1 && ColOk(Col(t, o))
      && var (u, second, again) := SpendCoin(t, o); again && second == Some(EMPTY_COIN) && EMPTY_COIN.IsSpent()
  {
    var s := Stack(map[o := coin], [map[]]);
    assert GetCoin(s, 0, o) == (s, Some(coin));
    SpendCoinDeletes(s, o);
  }

  lemma UncacheKeeps(s: Stack, i: nat, o: OutPoint)
    requires ColOk(Col(s, o)) && i < |s.caches|
    ensures var t := Uncache(s, i, o);
      SameElsewhere(s, t, o) && ColOk(Col(t, o)) && SameColViews(Col(s, o), Col(t, o))
  {
    assert Col(s, o).entries[i] == EntryAt(s.caches[i], o);
    if o in s.caches[i] && !s.caches[i][o].isDirty && !s.caches[i][o].isFresh {
      SetEntry(s, i, o, None);
      ColReplace(Col(s, o), i, None);
    }
  }

  /** Flushing any cache of a truthful stack never throws; its base view becomes what the cache
      showed, and no other view changes. */
  lemma FlushRefines(s: Stack, i: nat)
    requires Valid(s) && i < |s.caches|
    ensures var r := Flush(s, i);
      && r.Flushed? && Valid(r.stack) && |r.stack.caches| == |s.caches|
      && (forall k, o :: 0 <= k <= |s.caches| ==> ViewAt(r.stack, k, o) == ViewAt(s, if k == i then i + 1 else k, o))
      && r.stack.caches[i] == map[]
  {
    var t := if i == 0 then Stack(WriteDb(s.caches[0], s.db), s.caches[0 := map[]])
             else s.(caches := s.caches[i - 1 := Merge(s.caches[i], s.caches[i - 1])][i := map[]]);
    forall o
      ensures ColOk(Col(t, o))
      ensures forall k :: 0 <= k <= |s.caches| ==> ViewAt(t, k, o) == ViewAt(s, if k == i then i + 1 else k, o)
      ensures i > 0 && o in s.caches[i] && o in s.caches[i - 1] ==>
        !EntryMisapplied(s.caches[i][o], Some(s.caches[i - 1][o]))
    {
      var c, d := Col(s, o), Col(t, o);
      assert c.entries[i] == EntryAt(s.caches[i], o) && (i > 0 ==> c.entries[i - 1] == EntryAt(s.caches[i - 1], o));
      ColFlush(c, i, d);
    }
  }

  // ------------------------------------------------------------- whole runs

  datatype Op =
    | Get(k: nat, o: OutPoint)
    | Add(o: OutPoint, coin: Coin, possibleOverwrite: bool)
    | Spend(o: OutPoint)
    | FlushAt(i: nat)
    | UncacheAt(i: nat, o: OutPoint)
    | Push
    | Pop

  /** The specification state: one plain map for each view, the database first. */
  type Views = seq<Utxos>

  predicate Allowed(v: Views, op: Op) {
    match op
    case Get(k, o) => k < |v|
    case Add(o, coin, ow) => |v| > 1 && !coin.IsSpent() && (ow || IsUnspendable(coin.script) || o !in v[|v| - 1])
    case Spend(o) => |v| > 1
    case FlushAt(i) => i + 1 < |v|
    case UncacheAt(i, o) => i + 1 < |v|
    case Push => |v| > 0
    case Pop => |v| > 1
  }

  function SpecStep(v: Views, op: Op): (Views, Option<Coin>)
    requires Allowed(v, op)
  {
    match op
    case Get(k, o) => (v, Lookup(v[k], o))
    case Add(o, coin, _) =>
      (if IsUnspendable(coin.script) then v else v[|v| - 1 := v[|v| - 1][o := coin]], None)
    case Spend(o) => (v[|v| - 1 := v[|v| - 1] - {o}], Lookup(v[|v| - 1], o))
    case FlushAt(i) => (v[i := v[i + 1]], None)
    case UncacheAt(_, _) => (v, None)
    case Push => (v + [v[|v| - 1]], None)
    case Pop => (v[..|v| - 1], None)
  }

  /** One operation of the real stack; `None` in the first component stands for a thrown error. */
  function Step(s: Stack, op: Op): (Option<Stack>, Option<Coin>)
    requires InRange(s, op)
  {
    match op
    case Get(k, o) => var (t, r) := GetCoin(s, k, o); (Some(t), r)
    case Add(o, coin, ow) =>
      var r := AddCoin(s, o, coin, ow);
      (if r.Added? then Some(r.stack) else None, None)
    case Spend(o) =>
      var (t, moved, _) := SpendCoin(s, o);
      (Some(t), if moved.Some? then AsOption(moved.value) else None)
    case FlushAt(i) =>
      var r := Flush(s, i);
      (if r.Flushed? then Some(r.stack) else None, None)
    case UncacheAt(i, o) => (Some(Uncache(s, i, o)), None)
    case Push => (Some(s.(caches := s.caches + [map[]])), None)
    case Pop => (Some(s.(caches := s.caches[..|s.caches| - 1])), None)
  }

  /** The plain maps `v` are what the views of `s` show. */
  ghost predicate Represents(s: Stack, v: Views) {
    && |v| == |s.caches| + 1
    && forall k, o :: 0 <= k < |v| ==> Lookup(v[k], o) == ViewAt(s, k, o)
  }

  /** Touching one column keeps the others represented. */
  lemma RepresentsElsewhere(s: Stack, t: Stack, o: OutPoint, v: Views, w: Views)
    requires Valid(s) && Represents(s, v) && |w| == |v|
    requires SameElsewhere(s, t, o) && ColOk(Col(t, o))
    requires forall k :: 0 <= k < |w| ==> Lookup(w[k], o) == ViewAt(t, k, o)
    requires forall k, p :: 0 <= k < |w| && p != o ==> Lookup(w[k], p) == Lookup(v[k], p)
    ensures Valid(t) && Represents(t, w)
  {
    forall k, p | 0 <= k < |w| ensures Lookup(w[k], p) == ViewAt(t, k, p) {
      if p != o { assert Col(t, p) == Col(s, p); }
    }
  }

  lemma PushRepresents(s: Stack, v: Views)
    requires Valid(s) && Represents(s, v)
    ensures var t := s.(caches := s.caches + [map[]]); Valid(t) && Represents(t, v + [v[|v| - 1]])
  {
    var t := s.(caches := s.caches + [map[]]);
    var w := v + [v[|v| - 1]];
    forall o ensures ColOk(Col(t, o)) ensures forall k :: 0 <= k < |w| ==> Lookup(w[k], o) == ViewAt(t, k, o) {
      var c, d := Col(s, o), Col(t, o);
      forall k | 0 <= k <= |s.caches| ensures ColView(d, k) == ColView(c, k) { ColViewBelow(c, d, k); }
      assert ColOk(c) && d.entries[|s.caches|] == None;
    }
  }

  lemma PopRepresents(s: Stack, v: Views)
    requires Valid(s) && Represents(s, v) && |s.caches| > 0
    ensures var t := s.(caches := s.caches[..|s.caches| - 1]); Valid(t) && Represents(t, v[..|v| - 1])
  {
    var t := s.(caches := s.caches[..|s.caches| - 1]);
    forall o ensures ColOk(Col(t, o)) ensures forall k :: 0 <= k < |s.caches| ==> ViewAt(s, k, o) == ViewAt(t, k, o) {
      var c, d := Col(s, o), Col(t, o);
      forall k | 0 <= k < |s.caches| ensures ColView(d, k) == ColView(c, k) { ColViewBelow(c, d, k); }
      assert ColOk(c);
    }
  }

  /** One honest step of the cache stack is one step of the stack of plain maps, with the same answer. */
  lemma StepRefines(s: Stack, v: Views, op: Op)
    requires Valid(s) && Represents(s, v) && Allowed(v, op)
    ensures var (t, r) := Step(s, op);
      t.Some? && Valid(t.value) && Represents(t.value, SpecStep(v, op).0) && r == SpecStep(v, op).1
  {
    var n := |s.caches|;
    var w := SpecStep(v, op).0;
    match op
    case Get(k, o) =>
      GetCoinReads(s, k, o);
      RepresentsElsewhere(s, GetCoin(s, k, o).0, o, v, w);
    case Add(o, coin, ow) =>
      AddCoinUpdates(s, o, coin, ow);
      RepresentsElsewhere(s, AddCoin(s, o, coin, ow).stack, o, v, w);
    case Spend(o) =>
      SpendCoinDeletes(s, o);
      RepresentsElsewhere(s, SpendCoin(s, o).0, o, v, w);
    case FlushAt(i) => FlushRefines(s, i);
    case UncacheAt(i, o) =>
      UncacheKeeps(s, i, o);
      RepresentsElsewhere(s, Uncache(s, i, o), o, v, w);
    case Push => PushRepresents(s, v);
    case Pop => PopRepresents(s, v);
  }

  ghost predicate AllAllowed(v: Views, ops: seq<Op>)
    decreases |ops|
  {
    ops == [] || (Allowed(v, ops[0]) && AllAllowed(SpecStep(v, ops[0]).0, ops[1..]))
  }

  ghost function SpecRun(v: Views, ops: seq<Op>): (Views, seq<Option<Coin>>)
    requires AllAllowed(v, ops)
    decreases |ops|
  {
    if ops == [] then (v, [])
    else
      var (v1, r) := SpecStep(v, ops[0]);
      var (v2, rs) := SpecRun(v1, ops[1..]);
      (v2, [r] + rs)
  }

  /** Whether the stack is deep enough for the operation to make sense. */
  predicate InRange(s: Stack, op: Op) {
    match op
    case Get(k, _) => k <= |s.caches|
    case Add(_, coin, _) => |s.caches| > 0 && !coin.IsSpent()
    case FlushAt(i) => i < |s.caches|
    case UncacheAt(i, _) => i < |s.caches|
    case Push => true
    case _ => |s.caches| > 0
  }

  /** A run of the real stack from `s` to `t` that throws nowhere and gives the answers `rs`. */
  ghost predicate Runs(s: Stack, ops: seq<Op>, rs: seq<Option<Coin>>, t: Stack)
    decreases |ops|
  {
    if ops == [] then rs == [] && s == t
    else
      && |rs| > 0 && InRange(s, ops[0])
      && var (s1, r) := Step(s, ops[0]);
         s1.Some? && rs[0] == r && Runs(s1.value, ops[1..], rs[1..], t)
  }

  /** Every honest run, at any depth, throws nowhere and answers exactly as the plain maps do. */
  lemma {:induction false} RunRefines(s: Stack, v: Views, ops: seq<Op>) returns (t: Stack)
    requires Valid(s) && Represents(s, v) && AllAllowed(v, ops)
    ensures Valid(t) && Represents(t, SpecRun(v, ops).0)
    ensures Runs(s, ops, SpecRun(v, ops).1, t)
    decreases |ops|
  {
    if ops == [] { t := s; }
    else {
      StepRefines(s, v, ops[0]);
      t := RunRefines(Step(s, ops[0]).0.value, SpecStep(v, ops[0]).0, ops[1..]);
    }
  }

  // ------------------------------------------------------- the mutable views

  lemma SameEntries(a: CoinsMap, b: CoinsMap)
    requires forall o :: EntryAt(a, o) == EntryAt(b, o)
    ensures a == b
  {
    forall o ensures (o in a <==> o in b) && (o in a ==> a[o] == b[o]) {
      assert EntryAt(a, o) == EntryAt(b, o);
    }
  }

  lemma SameCoins(a: Utxos, b: Utxos)
    requires forall o :: Lookup(a, o) == Lookup(b, o)
    ensures a == b
  {
    forall o ensures (o in a <==> o in b) && (o in a ==> a[o] == b[o]) {
      assert Lookup(a, o) == Lookup(b, o);
    }
  }

  /** The stacked `CCoinsViewCache` objects; `caches[i]` is the `cacheCoins` of the i-th one. */
  class CoinsViews {
    var db: Utxos
    var caches: seq<CoinsMap>

    ghost function State(): Stack reads this { Stack(db, caches) }

    constructor (db: Utxos)
      ensures State() == Stack(db, [])
    {
      this.db, this.caches := db, [];
    }

    /** `CCoinsViewCache::FetchCoin` of cache `i`: fills the caches below on a miss. */
    method Fetch(i: nat, o: OutPoint)
      requires i < |caches|
      modifies this`caches
      ensures State() == FetchCoin(old(State()), i, o)
      decreases i, 1
    {
      if o in caches[i] { return; }
      var found := Read(i, o);
      if found.None? { return; }
      caches := caches[i := caches[i][o := Entry(found.value, false, found.value.IsSpent())]];
    }

    method Read(k: nat, o: OutPoint) returns (r: Option<Coin>)
      requires k <= |caches|
      modifies this`caches
      ensures (State(), r) == GetCoin(old(State()), k, o)
      decreases k, 0
    {
      if k == 0 { return Lookup(db, o); }
      Fetch(k - 1, o);
      r := if o in caches[k - 1] then AsOption(caches[k - 1][o].coin) else None;
    }

    /** The body of the `BatchWrite` loop for one entry of the child. */
    method WriteEntry(i: nat, o: OutPoint, child: Entry) returns (ok: bool)
      requires i < |caches|
      modifies this`caches
      ensures ok <==> !EntryMisapplied(child, EntryAt(old(caches[i]), o))
      ensures |caches| == |old(caches)| && caches == old(caches)[i := caches[i]]
      ensures ok ==> EntryAt(caches[i], o) == MergeEntry(child, EntryAt(old(caches[i]), o))
      ensures forall p :: p != o ==> EntryAt(caches[i], p) == EntryAt(old(caches[i]), p)
    {
      if !child.isDirty { return true; }
      var us := caches[i];
      if o !in us {
        if !(child.isFresh && child.coin.IsSpent()) {
          us := us[o := Entry(child.coin, true, child.isFresh)];
        }
      } else if child.isFresh && !us[o].coin.IsSpent() {
        return false;
      } else if us[o].isFresh && child.coin.IsSpent() {
        us := us - {o};
      } else {
        us := us[o := Entry(child.coin, true, us[o].isFresh)];
      }
      caches := caches[i := us];
      ok := true;
    }

    /** `CCoinsViewCache::BatchWrite` into cache `i`, consuming the entries in any order. */
    method BatchWrite(i: nat, mapCoins: CoinsMap) returns (ok: bool)
      requires i < |caches|
      modifies this`caches
      ensures ok <==> !Misapplied(mapCoins, old(caches[i]))
      ensures ok ==> caches == old(caches)[i := Merge(mapCoins, old(caches[i]))]
    {
      var rest := mapCoins.Keys;
      ghost var us := caches[i];
      while rest != {}
        invariant |caches| == |old(caches)| && caches == old(caches)[i := caches[i]]
        invariant rest <= mapCoins.Keys
        invariant forall o :: o in mapCoins && o !in rest ==> !EntryMisapplied(mapCoins[o], EntryAt(us, o))
        invariant forall o :: EntryAt(caches[i], o) == if o in rest then EntryAt(us, o) else MergedAt(mapCoins, us, o)
        decreases rest
      {
        var o :| o in rest;
        ok := WriteEntry(i, o, mapCoins[o]);
        if !ok { return; }
        rest := rest - {o};
      }
      SameEntries(caches[i], Merge(mapCoins, us));
      ok := true;
    }

    /** `CCoinsViewDB::BatchWrite`: the bottom of the stack. */
    method BatchWriteDb(mapCoins: CoinsMap)
      modifies this`db
      ensures db == WriteDb(mapCoins, old(db))
    {
      var rest := mapCoins.Keys;
      while rest != {}
        invariant rest <= mapCoins.Keys
        invariant forall o :: Lookup(db, o) == if o in rest then Lookup(old(db), o) else WrittenAt(mapCoins, old(db), o)
        decreases rest
      {
        var o :| o in rest;
        if mapCoins[o].isDirty {
          db := if mapCoins[o].coin.IsSpent() then db - {o} else db[o := mapCoins[o].coin];
        }
        rest := rest - {o};
      }
      SameCoins(db, WriteDb(mapCoins, old(db)));
    }

    /** `CCoinsViewCache::Flush` of cache `i`; false stands for the thrown logic error. */
    method FlushCache(i: nat) returns (ok: bool)
      requires i < |caches|
      modifies this
      ensures ok <==> Flush(old(State()), i).Flushed?
      ensures ok ==> State() == Flush(old(State()), i).stack
    {
      if i == 0 {
        BatchWriteDb(caches[0]);
        ok := true;
      } else {
        ok := BatchWrite(i - 1, caches[i]);
        if !ok { return; }
      }
      caches := caches[i := map[]];
    }

    /** `CCoinsViewCache::AddCoin` on the top cache; false stands for the thrown logic error. */
    method Add(o: OutPoint, coin: Coin, possibleOverwrite: bool) returns (ok: bool)
      requires |caches| > 0 && !coin.IsSpent()
      modifies this`caches
      ensures ok <==> AddCoin(old(State()), o, coin, possibleOverwrite).Added?
      ensures ok ==> Added(State()) == AddCoin(old(State()), o, coin, possibleOverwrite)
    {
      if IsUnspendable(coin.script) { return true; }
      var top := |caches| - 1;
      if o !in caches[top] {
        caches := caches[top := caches[top][o := Entry(EMPTY_COIN, false, false)]];
      }
      var e := caches[top][o];
      var isFresh := false;
      if !possibleOverwrite {
        if !e.coin.IsSpent() { return false; }
        isFresh := !e.isDirty;
      }
      caches := caches[top := caches[top][o := Entry(coin, true, e.isFresh || isFresh)]];
      assert caches[top] == old(caches)[top][o := caches[top][o]];
      ok := true;
    }

    /** `CCoinsViewCache::SpendCoin` on the top cache. */
    method Spend(o: OutPoint) returns (moved: Option<Coin>, ok: bool)
      requires |caches| > 0
      modifies this`caches
      ensures (State(), moved, ok) == SpendCoin(old(State()), o)
    {
      var top := |caches| - 1;
      Fetch(top, o);
      if o !in caches[top] { return None, false; }
      moved := Some(caches[top][o].coin);
      if caches[top][o].isFresh {
        caches := caches[top := caches[top] - {o}];
      } else {
        caches := caches[top := caches[top][o := Entry(EMPTY_COIN, true, false)]];
      }
      ok := true;
    }
  }
}
