/** The address manager: an id table, an address index, a random-order vector and two hash tables
    ("new" and "tried") that must agree.  A table slot that the program marks -1 is absent from
    the map here.  Hashes, the clock and random draws are parameters. */
module AddrMan {
  import Numbers
  import opened Common

  const NEW_BUCKETS_PER_ADDRESS := 8
  const SET_TRIED_COLLISION_SIZE := 10
  const HORIZON_SECONDS := 30 * 24 * 60 * 60
  const RETRIES := 3
  const MAX_FAILURES := 10
  const MIN_FAIL_SECONDS := 7 * 24 * 60 * 60
  const REPLACEMENT_SECONDS := 4 * 60 * 60
  const TEST_WINDOW := 40 * 60
  const GETADDR_MAX_PCT := 23
  const GETADDR_MAX := 2500

  type NetAddr = nat
  /** Service bits, as the set of bits that are on. */
  type Flags = set<nat>
  datatype Service = Service(ip: NetAddr, port: nat)
  datatype Address = Address(service: Service, nTime: nat, nServices: Flags)

  /** The statistics of an entry: everything no table depends on. */
  datatype Stat = Stat(
    nTime: int, nServices: Flags, source: NetAddr,
    nLastTry: int, nLastCountAttempt: int, nLastSuccess: int, nAttempts: int)

  /** Table sizes and the keyed hashes, as uninterpreted functions of the address. */
  datatype Config = Config(
    newBuckets: nat, triedBuckets: nat, bucketSize: nat,
    triedHash: Service -> nat, newHash: (Service, NetAddr) -> nat, posHash: (bool, nat, Service) -> nat,
    routable: NetAddr -> bool, valid: NetAddr -> bool)

  /** The remainder, by repeated subtraction. */
  function Mod(x: nat, n: nat): (r: nat)
    ensures n > 0 ==> r < n
    decreases x
  {
    if n == 0 then 0 else if x < n then x else Mod(x - n, n)
  }

  lemma {:induction false} ModIsRemainder(x: nat, n: nat)
    requires n > 0
    ensures Mod(x, n) == x % n
    decreases x
  {
    if x >= n {
      var q, r := (x - n) / n, (x - n) % n;
      ModIsRemainder(x - n, n);
      NextMultiple(q, n);
      Numbers.RemainderIs(x, n, q + 1, r);
    }
  }

  lemma NextMultiple(q: int, n: int)
    ensures (q + 1) * n == q * n + n
  {}

  function NewBucket(c: Config, a: Service, source: NetAddr): nat { Mod(c.newHash(a, source), c.newBuckets) }
  function TriedBucket(c: Config, a: Service): nat { Mod(c.triedHash(a), c.triedBuckets) }
  function Position(c: Config, isNew: bool, bucket: nat, a: Service): nat {
    Mod(c.posHash(isNew, bucket, a), c.bucketSize)
  }

  /** With real tables these are the source's remainders; a table without buckets has only bucket 0. */
  lemma BucketsAre(c: Config, a: Service, source: NetAddr, isNew: bool, bucket: nat)
    requires c.newBuckets > 0 && c.triedBuckets > 0 && c.bucketSize > 0
    ensures NewBucket(c, a, source) == c.newHash(a, source) % c.newBuckets
    ensures TriedBucket(c, a) == c.triedHash(a) % c.triedBuckets
    ensures Position(c, isNew, bucket, a) == c.posHash(isNew, bucket, a) % c.bucketSize
  {
    ModIsRemainder(c.newHash(a, source), c.newBuckets);
    ModIsRemainder(c.triedHash(a), c.triedBuckets);
    ModIsRemainder(c.posHash(isNew, bucket, a), c.bucketSize);
  }

  datatype Slot = Slot(bucket: nat, pos: nat)
  type Table = map<Slot, int>

  function NewSlot(c: Config, bucket: nat, a: Service): Slot { Slot(bucket, Position(c, true, bucket, a)) }
  function TriedSlot(c: Config, a: Service): Slot {
    Slot(TriedBucket(c, a), Position(c, false, TriedBucket(c, a), a))
  }

  /** The columns of `mapInfo` (address, reference count, in-tried flag, position, statistics) are
      kept as separate maps with the same ids, beside the tables that must agree with them. */
  datatype Index = Index(nIdCount: nat, pos: map<int, int>, mapAddr: map<NetAddr, int>, vRandom: seq<int>)
  datatype Books = Books(refs: map<int, int>, tried: set<int>, vvNew: Table, vvTried: Table, nNew: int, nTried: int)
  type Services = map<int, Service>
  datatype State = State(svc: Services, ix: Index, bk: Books, stats: map<int, Stat>, nLastGood: int,
    collisions: set<int>)

  function Max(a: int, b: int): int { if a > b then a else b }
  /** Storing into the 32-bit time field. */
  function U32(x: int): int { x % 0x1_0000_0000 }

  predicate IsTerrible(i: Stat, now: int) {
    if i.nLastTry != 0 && i.nLastTry >= now - 60 then false
    else if i.nTime > now + 10 * 60 then true
    else if i.nTime == 0 || now - i.nTime > HORIZON_SECONDS then true
    else if i.nLastSuccess == 0 && i.nAttempts >= RETRIES then true
    else now - i.nLastSuccess > MIN_FAIL_SECONDS && i.nAttempts >= MAX_FAILURES
  }

  // -------------------------------------------------------------- invariants

  /** The id table and the address index are inverse to each other. */
  ghost predicate AddrOk(svc: Services, addr: map<NetAddr, int>) {
    && (forall id :: id in svc ==> svc[id].ip in addr && addr[svc[id].ip] == id)
    && (forall a :: a in addr ==> addr[a] in svc && svc[addr[a]].ip == a)
  }

  /** The random-order vector and the stored positions are inverse to each other. */
  ghost predicate RandomOk(pos: map<int, int>, vRandom: seq<int>) {
    && (forall id {:trigger HasPlace(pos, vRandom, id)} :: id in pos ==> HasPlace(pos, vRandom, id))
    && (forall i {:trigger HasId(pos, vRandom, i)} :: 0 <= i < |vRandom| ==> HasId(pos, vRandom, i))
  }

  predicate HasPlace(pos: map<int, int>, vRandom: seq<int>, id: int) {
    id in pos && 0 <= pos[id] < |vRandom| && vRandom[pos[id]] == id
  }

  predicate HasId(pos: map<int, int>, vRandom: seq<int>, i: int) {
    0 <= i < |vRandom| && vRandom[i] in pos && pos[vRandom[i]] == i
  }

  ghost predicate IndexOk(svc: Services, ix: Index) {
    && ix.pos.Keys == svc.Keys && |ix.vRandom| == |svc.Keys|
    && (forall id :: id in svc ==> 0 <= id < ix.nIdCount)
    && AddrOk(svc, ix.mapAddr)
    && RandomOk(ix.pos, ix.vRandom)
  }

  /** Every occupied slot of the new table holds an untried entry, at its hashed position. */
  ghost predicate NewOk(c: Config, svc: Services, tried: set<int>, vvNew: Table) {
    forall sl :: sl in vvNew ==>
      && vvNew[sl] in svc && vvNew[sl] !in tried
      && sl.bucket < c.newBuckets && sl == NewSlot(c, sl.bucket, svc[vvNew[sl]])
  }

  /** The slots of the new table that hold `id`. */
  ghost function RefSlots(vvNew: Table, id: int): set<Slot> { set sl | sl in vvNew && vvNew[sl] == id }

  /** Reference counts are true counts; only ids in `limbo` may be referenced from nowhere. */
  ghost predicate RefOk(refs: map<int, int>, tried: set<int>, vvNew: Table, limbo: set<int>) {
    forall id :: id in refs ==>
      && refs[id] == |RefSlots(vvNew, id)|
      && refs[id] <= NEW_BUCKETS_PER_ADDRESS
      && (id !in tried && id !in limbo ==> refs[id] >= 1)
  }

  /** Each tried entry sits in its own slot and nothing else sits anywhere. */
  ghost predicate TriedOk(c: Config, svc: Services, tried: set<int>, vvTried: Table) {
    && (forall sl :: sl in vvTried ==>
        vvTried[sl] in tried && vvTried[sl] in svc &&
        sl == TriedSlot(c, svc[vvTried[sl]]))
    && (forall id :: id in tried ==>
          id in svc && TriedSlot(c, svc[id]) in vvTried && vvTried[TriedSlot(c, svc[id])] == id)
  }

  /** The tables are right when `limbo` ids may still be unreferenced and `off` of the untried ids
      are not yet counted in `nNew`. */
  ghost predicate BooksOk(c: Config, svc: Services, bk: Books, limbo: set<int>, off: int) {
    && c.newBuckets > 0 && bk.refs.Keys == svc.Keys && bk.tried <= svc.Keys
    && NewOk(c, svc, bk.tried, bk.vvNew)
    && RefOk(bk.refs, bk.tried, bk.vvNew, limbo)
    && TriedOk(c, svc, bk.tried, bk.vvTried)
    && bk.nTried == |bk.tried| && bk.nNew + off == |svc.Keys| - |bk.tried|
  }

  ghost predicate StatsOk(svc: Services, tried: set<int>, stats: map<int, Stat>) {
    && stats.Keys == svc.Keys
    && (forall id :: id in stats ==> stats[id].nLastTry >= 0 && stats[id].nLastSuccess >= 0)
    && (forall id :: id in tried && id in stats ==> stats[id].nLastSuccess != 0)
  }

  /** Consistency in the middle of an operation. */
  ghost predicate Inv(c: Config, s: State, limbo: set<int>, off: int) {
    && IndexOk(s.svc, s.ix)
    && BooksOk(c, s.svc, s.bk, limbo, off)
    && StatsOk(s.svc, s.bk.tried, s.stats)
  }

  /** The whole consistency condition between operations: what `Check_` checks. */
  ghost predicate Consistent(c: Config, s: State) { Inv(c, s, {}, 0) }

  // ------------------------------------------------------------ the tables

  function BkCreate(bk: Books, id: int): Books { bk.(refs := bk.refs[id := 0]) }

  function BkDelete(bk: Books, id: int): Books { bk.(refs := bk.refs - {id}, nNew := bk.nNew - 1) }

  /** Take `id` out of a slot of the new table. */
  function BkUnref(bk: Books, sl: Slot): Books
    requires sl in bk.vvNew && bk.vvNew[sl] in bk.refs
  {
    var id := bk.vvNew[sl];
    bk.(refs := bk.refs[id := bk.refs[id] - 1], vvNew := bk.vvNew - {sl})
  }

  /** Put `id` into a free slot of the new table. */
  function BkRef(bk: Books, sl: Slot, id: int): Books
    requires id in bk.refs
  {
    bk.(refs := bk.refs[id := bk.refs[id] + 1], vvNew := bk.vvNew[sl := id])
  }

  function BkToTried(bk: Books, sl: Slot, id: int): Books {
    bk.(tried := bk.tried + {id}, vvTried := bk.vvTried[sl := id], nTried := bk.nTried + 1)
  }

  function BkFromTried(bk: Books, sl: Slot): Books
    requires sl in bk.vvTried
  {
    bk.(tried := bk.tried - {bk.vvTried[sl]}, vvTried := bk.vvTried - {sl}, nTried := bk.nTried - 1)
  }

  lemma RefAddOne(vvNew: Table, sl: Slot, id: int, x: int)
    requires sl !in vvNew
    ensures |RefSlots(vvNew[sl := id], x)| == |RefSlots(vvNew, x)| + if x == id then 1 else 0
  {
    assert RefSlots(vvNew[sl := id], x) == RefSlots(vvNew, x) + if x == id then {sl} else {};
  }

  lemma RefAdd(vvNew: Table, sl: Slot, id: int)
    requires sl !in vvNew
    ensures forall x :: |RefSlots(vvNew[sl := id], x)| == |RefSlots(vvNew, x)| + if x == id then 1 else 0
  {
    forall x ensures |RefSlots(vvNew[sl := id], x)| == |RefSlots(vvNew, x)| + if x == id then 1 else 0 {
      RefAddOne(vvNew, sl, id, x);
    }
  }

  lemma RefRemove(vvNew: Table, sl: Slot)
    requires sl in vvNew
    ensures forall x :: |RefSlots(vvNew - {sl}, x)| == |RefSlots(vvNew, x)| - if x == vvNew[sl] then 1 else 0
  {
    forall x ensures |RefSlots(vvNew - {sl}, x)| == |RefSlots(vvNew, x)| - if x == vvNew[sl] then 1 else 0 {
      assert RefSlots(vvNew - {sl}, x) == RefSlots(vvNew, x) - if x == vvNew[sl] then {sl} else {};
    }
  }

  /** An unreferenced entry sits in no slot of the new table. */
  lemma Unreferenced(vvNew: Table, id: int)
    requires |RefSlots(vvNew, id)| == 0
    ensures forall sl :: sl in vvNew ==> vvNew[sl] != id
  {
    forall sl | sl in vvNew ensures vvNew[sl] != id {
      assert RefSlots(vvNew, id) == {};
      assert vvNew[sl] == id ==> sl in RefSlots(vvNew, id);
    }
  }

  lemma CreateTables(c: Config, svc: Services, bk: Books, id: int, a: Service)
    requires NewOk(c, svc, bk.tried, bk.vvNew) && TriedOk(c, svc, bk.tried, bk.vvTried) && id !in svc
    ensures NewOk(c, svc[id := a], bk.tried, bk.vvNew) && TriedOk(c, svc[id := a], bk.tried, bk.vvTried)
    ensures RefSlots(bk.vvNew, id) == {}
  {}

  lemma CreateBooks(c: Config, svc: Services, bk: Books, limbo: set<int>, off: int, id: int, a: Service)
    requires BooksOk(c, svc, bk, limbo, off) && id !in svc
    ensures BooksOk(c, svc[id := a], BkCreate(bk, id), limbo + {id}, off + 1)
  {
    CreateTables(c, svc, bk, id, a);
    assert svc[id := a].Keys == svc.Keys + {id};
  }

  lemma DeleteBooks(c: Config, svc: Services, bk: Books, limbo: set<int>, off: int, id: int)
    requires BooksOk(c, svc, bk, limbo, off) && id in svc && bk.refs[id] == 0 && id !in bk.tried
    ensures BooksOk(c, svc - {id}, BkDelete(bk, id), limbo - {id}, off)
  {
    assert (svc - {id}).Keys == svc.Keys - {id};
    Unreferenced(bk.vvNew, id);
  }

  lemma UnrefBooks(c: Config, svc: Services, bk: Books, limbo: set<int>, off: int, sl: Slot)
    requires BooksOk(c, svc, bk, limbo, off) && sl in bk.vvNew
    ensures bk.vvNew[sl] in bk.refs && bk.refs[bk.vvNew[sl]] >= 1
    ensures BooksOk(c, svc, BkUnref(bk, sl), limbo + {bk.vvNew[sl]}, off)
    ensures bk.refs[bk.vvNew[sl]] > 1 ==> BooksOk(c, svc, BkUnref(bk, sl), limbo, off)
  {
    RefRemove(bk.vvNew, sl);
    assert sl in RefSlots(bk.vvNew, bk.vvNew[sl]);
  }

  lemma RefBooks(c: Config, svc: Services, bk: Books, limbo: set<int>, off: int, sl: Slot, id: int)
    requires BooksOk(c, svc, bk, limbo, off) && sl !in bk.vvNew
    requires id in svc && id !in bk.tried && bk.refs[id] < NEW_BUCKETS_PER_ADDRESS
    requires sl.bucket < c.newBuckets && sl == NewSlot(c, sl.bucket, svc[id])
    ensures BooksOk(c, svc, BkRef(bk, sl, id), limbo - {id}, off)
  {
    RefAdd(bk.vvNew, sl, id);
  }

  lemma ToTriedBooks(c: Config, svc: Services, bk: Books, limbo: set<int>, off: int, id: int)
    requires BooksOk(c, svc, bk, limbo, off) && id in svc && bk.refs[id] == 0 && id !in bk.tried
    requires TriedSlot(c, svc[id]) !in bk.vvTried
    ensures BooksOk(c, svc, BkToTried(bk, TriedSlot(c, svc[id]), id), limbo - {id}, off - 1)
  {
    Unreferenced(bk.vvNew, id);
  }

  lemma FromTriedBooks(c: Config, svc: Services, bk: Books, limbo: set<int>, off: int, sl: Slot)
    requires BooksOk(c, svc, bk, limbo, off) && sl in bk.vvTried
    ensures bk.vvTried[sl] in svc && bk.refs[bk.vvTried[sl]] == 0 && sl == TriedSlot(c, svc[bk.vvTried[sl]])
    ensures BooksOk(c, svc, BkFromTried(bk, sl), limbo + {bk.vvTried[sl]}, off + 1)
  {
    assert RefSlots(bk.vvNew, bk.vvTried[sl]) == {};
  }

  // ------------------------------------------------------------- the index

  function IxCreate(ix: Index, ip: NetAddr): Index {
    Index(ix.nIdCount + 1, ix.pos[ix.nIdCount := |ix.vRandom|], ix.mapAddr[ip := ix.nIdCount],
      ix.vRandom + [ix.nIdCount])
  }

  predicate CanSwap(ix: Index, i: int, j: int) {
    0 <= i < |ix.vRandom| && 0 <= j < |ix.vRandom| && ix.vRandom[i] in ix.pos && ix.vRandom[j] in ix.pos
  }

  /** `SwapRandom`. */
  function IxSwap(ix: Index, i: int, j: int): (r: Index)
    requires i == j || CanSwap(ix, i, j)
    ensures |r.vRandom| == |ix.vRandom|
  {
    if i == j then ix
    else
      var a, b := ix.vRandom[i], ix.vRandom[j];
      ix.(pos := ix.pos[a := j][b := i], vRandom := ix.vRandom[i := b][j := a])
  }

  function IxDelete(ix: Index, id: int, ip: NetAddr): Index
    requires CanDrop(ix, id)
  {
    IxDrop(IxSwap(ix, ix.pos[id], |ix.vRandom| - 1), id, ip)
  }

  function IxDrop(ix: Index, id: int, ip: NetAddr): Index
    requires |ix.vRandom| > 0
  {
    ix.(vRandom := ix.vRandom[..|ix.vRandom| - 1], mapAddr := ix.mapAddr - {ip}, pos := ix.pos - {id})
  }

  /** The assertions of the swap inside `Delete`. */
  predicate CanDrop(ix: Index, id: int) {
    id in ix.pos && |ix.vRandom| > 0 && (ix.pos[id] == |ix.vRandom| - 1 || CanSwap(ix, ix.pos[id], |ix.vRandom| - 1))
  }

  lemma PushRandom(pos: map<int, int>, v: seq<int>, id: int)
    requires RandomOk(pos, v) && id !in pos
    ensures RandomOk(pos[id := |v|], v + [id])
  {
    var p, w := pos[id := |v|], v + [id];
    forall x | x in p ensures HasPlace(p, w, x) { assert x != id ==> HasPlace(pos, v, x); }
    forall i | 0 <= i < |w| ensures HasId(p, w, i) { assert i < |v| ==> HasId(pos, v, i); }
  }

  lemma InsertAddr(svc: Services, addr: map<NetAddr, int>, id: int, a: Service)
    requires AddrOk(svc, addr) && id !in svc && a.ip !in addr
    ensures AddrOk(svc[id := a], addr[a.ip := id])
  {}

  lemma CreateIndex(svc: Services, ix: Index, a: Service)
    requires IndexOk(svc, ix) && a.ip !in ix.mapAddr
    ensures IndexOk(svc[ix.nIdCount := a], IxCreate(ix, a.ip))
  {
    assert svc[ix.nIdCount := a].Keys == svc.Keys + {ix.nIdCount};
    PushRandom(ix.pos, ix.vRandom, ix.nIdCount);
    InsertAddr(svc, ix.mapAddr, ix.nIdCount, a);
  }

  lemma SwapRandom(pos: map<int, int>, v: seq<int>, i: int, j: int)
    requires RandomOk(pos, v) && 0 <= i < |v| && 0 <= j < |v| && i != j
    ensures v[i] in pos && v[j] in pos && pos[v[i] := j][v[j] := i].Keys == pos.Keys
    ensures RandomOk(pos[v[i] := j][v[j] := i], v[i := v[j]][j := v[i]])
  {
    assert HasId(pos, v, i) && HasId(pos, v, j);
    var p, w := pos[v[i] := j][v[j] := i], v[i := v[j]][j := v[i]];
    forall x | x in p ensures HasPlace(p, w, x) { assert x in pos ==> HasPlace(pos, v, x); }
    forall k | 0 <= k < |w| ensures HasId(p, w, k) { assert HasId(pos, v, k); }
  }

  lemma SwapIndex(svc: Services, ix: Index, i: int, j: int)
    requires IndexOk(svc, ix) && 0 <= i < |ix.vRandom| && 0 <= j < |ix.vRandom|
    ensures CanSwap(ix, i, j) && IndexOk(svc, IxSwap(ix, i, j))
    ensures IxSwap(ix, i, j).vRandom[j] == ix.vRandom[i] && IxSwap(ix, i, j).vRandom[i] == ix.vRandom[j]
  {
    assert HasId(ix.pos, ix.vRandom, i) && HasId(ix.pos, ix.vRandom, j);
    if i != j { SwapRandom(ix.pos, ix.vRandom, i, j); }
  }

  lemma PopRandom(pos: map<int, int>, v: seq<int>)
    requires RandomOk(pos, v) && |v| > 0
    ensures RandomOk(pos - {v[|v| - 1]}, v[..|v| - 1])
  {
    var last := |v| - 1;
    var p, w := pos - {v[last]}, v[..last];
    assert HasId(pos, v, last);
    forall x | x in p ensures HasPlace(p, w, x) { assert HasPlace(pos, v, x); }
    forall k | 0 <= k < |w| ensures HasId(p, w, k) { assert HasId(pos, v, k); }
  }

  lemma RemoveAddr(svc: Services, addr: map<NetAddr, int>, id: int)
    requires AddrOk(svc, addr) && id in svc
    ensures AddrOk(svc - {id}, addr - {svc[id].ip})
  {}

  lemma DropLast(svc: Services, t: Index, id: int)
    requires IndexOk(svc, t) && id in svc && |t.vRandom| > 0 && t.vRandom[|t.vRandom| - 1] == id
    ensures IndexOk(svc - {id}, IxDrop(t, id, svc[id].ip))
  {
    PopRandom(t.pos, t.vRandom);
    RemoveAddr(svc, t.mapAddr, id);
    assert (svc - {id}).Keys == svc.Keys - {id};
  }

  lemma SwapToEnd(svc: Services, ix: Index, id: int)
    requires IndexOk(svc, ix) && id in svc
    ensures CanDrop(ix, id)
    ensures var t := IxSwap(ix, ix.pos[id], |ix.vRandom| - 1); IndexOk(svc, t) && t.vRandom[|ix.vRandom| - 1] == id
  {
    assert HasPlace(ix.pos, ix.vRandom, id);
    SwapIndex(svc, ix, ix.pos[id], |ix.vRandom| - 1);
  }

  lemma DeleteIndex(svc: Services, ix: Index, id: int)
    requires IndexOk(svc, ix) && id in svc
    ensures CanDrop(ix, id) && IndexOk(svc - {id}, IxDelete(ix, id, svc[id].ip))
  {
    SwapToEnd(svc, ix, id);
    DropLast(svc, IxSwap(ix, ix.pos[id], |ix.vRandom| - 1), id);
  }

  // -------------------------------------------------------------- the state

  function Empty(): State {
    State(map[], Index(0, map[], map[], []), Books(map[], {}, map[], map[], 0, 0), map[], 1, {})
  }

  function Find(s: State, ip: NetAddr): Option<int> {
    if ip in s.ix.mapAddr && s.ix.mapAddr[ip] in s.svc then Some(s.ix.mapAddr[ip]) else None
  }

  function SetStat(s: State, id: int, i: Stat): State { s.(stats := s.stats[id := i]) }

  /** The assertions of `Delete`. */
  predicate CanDelete(s: State, id: int) {
    id in s.svc && id in s.bk.refs && id !in s.bk.tried && s.bk.refs[id] == 0 && CanDrop(s.ix, id)
  }

  function Delete(s: State, id: int): State
    requires CanDelete(s, id)
  {
    s.(svc := s.svc - {id}, ix := IxDelete(s.ix, id, s.svc[id].ip), bk := BkDelete(s.bk, id), stats := s.stats - {id})
  }

  /** The assertions of `ClearNew`. */
  predicate CanClear(s: State, sl: Slot) {
    sl in s.bk.vvNew ==>
      && s.bk.vvNew[sl] in s.bk.refs && s.bk.refs[s.bk.vvNew[sl]] > 0
      && (s.bk.refs[s.bk.vvNew[sl]] == 1 ==> CanDelete(s.(bk := BkUnref(s.bk, sl)), s.bk.vvNew[sl]))
  }

  function ClearNew(s: State, sl: Slot): State
    requires CanClear(s, sl)
  {
    if sl !in s.bk.vvNew then s
    else
      var id := s.bk.vvNew[sl];
      var t := s.(bk := BkUnref(s.bk, sl));
      if s.bk.refs[id] == 1 then Delete(t, id) else t
  }

  /** The entry's slots in the first `b` new buckets. */
  function GoneBelow(c: Config, vvNew: Table, id: int, a: Service, b: nat): set<Slot> {
    set sl | sl in vvNew && vvNew[sl] == id && sl.bucket < b && sl == NewSlot(c, sl.bucket, a)
  }

  function RemoveBelow(c: Config, bk: Books, id: int, a: Service, b: nat): Books
    requires id in bk.refs
  {
    Without(bk, id, GoneBelow(c, bk.vvNew, id, a, b))
  }

  /** The loop of `MakeTried` over all new buckets, at the entry's position in each. */
  function RemoveFromNew(c: Config, bk: Books, id: int, a: Service): Books
    requires id in bk.refs
  {
    RemoveBelow(c, bk, id, a, c.newBuckets)
  }

  lemma DeleteKeeps(c: Config, s: State, id: int, limbo: set<int>, off: int)
    requires Inv(c, s, limbo, off) && id in s.svc && s.bk.refs[id] == 0 && id !in s.bk.tried
    ensures CanDelete(s, id) && Inv(c, Delete(s, id), limbo - {id}, off)
  {
    DeleteIndex(s.svc, s.ix, id);
    DeleteBooks(c, s.svc, s.bk, limbo, off, id);
  }

  lemma AddRemove(limbo: set<int>, id: int)
    requires id !in limbo
    ensures limbo + {id} - {id} == limbo
  {}

  lemma RemoveAbsent(v: Table, sl: Slot)
    requires sl !in v
    ensures v - {sl} == v
  {}

  /** Clearing a slot: none of the assertions can fail; the slot is free afterwards and only its
      occupant loses a reference, or disappears when it was the last one. */
  lemma ClearNewKeeps(c: Config, s: State, sl: Slot, limbo: set<int>, off: int)
    requires Inv(c, s, limbo, off) && (sl in s.bk.vvNew ==> s.bk.vvNew[sl] !in limbo)
    ensures CanClear(s, sl) && Inv(c, ClearNew(s, sl), limbo, off)
    ensures ClearNew(s, sl).bk.vvNew == s.bk.vvNew - {sl}
  {
    if sl in s.bk.vvNew {
      var id := s.bk.vvNew[sl];
      UnrefBooks(c, s.svc, s.bk, limbo, off, sl);
      var t := s.(bk := BkUnref(s.bk, sl));
      if s.bk.refs[id] == 1 {
        DeleteKeeps(c, t, id, limbo + {id}, off);
        AddRemove(limbo, id);
        assert ClearNew(s, sl) == Delete(t, id);
      } else {
        assert ClearNew(s, sl) == t;
      }
    } else {
      RemoveAbsent(s.bk.vvNew, sl);
    }
  }

  /** In a consistent table the loop finds every reference. */
  lemma RemoveFromNewKeeps(c: Config, svc: Services, bk: Books, id: int, limbo: set<int>, off: int)
    requires BooksOk(c, svc, bk, limbo, off) && id in svc
    ensures var bk' := RemoveFromNew(c, bk, id, svc[id]);
      bk'.refs[id] == 0 && BooksOk(c, svc, bk', limbo + {id}, off) &&
        (forall sl :: sl in bk'.vvNew ==> bk'.vvNew[sl] != id)
  {
    var gone := GoneBelow(c, bk.vvNew, id, svc[id], c.newBuckets);
    assert gone == RefSlots(bk.vvNew, id);
    var v := bk.vvNew - gone;
    forall x ensures |RefSlots(v, x)| == if x == id then 0 else |RefSlots(bk.vvNew, x)| {
      assert RefSlots(v, x) == if x == id then {} else RefSlots(bk.vvNew, x);
    }
  }

  /** Where a tried entry goes when it is evicted: the new bucket of its own source. */
  function HomeSlot(c: Config, s: State, id: int): Slot
    requires id in s.svc && id in s.stats
  {
    NewSlot(c, NewBucket(c, s.svc[id], s.stats[id].source), s.svc[id])
  }

  /** The assertions met while the occupant of a tried slot is moved back to the new table. */
  predicate CanEvict(c: Config, s: State, sl: Slot) {
    && sl in s.bk.vvTried && s.bk.vvTried[sl] in s.svc && s.bk.vvTried[sl] in s.stats
    && CanClear(s.(bk := BkFromTried(s.bk, sl)), HomeSlot(c, s, s.bk.vvTried[sl]))
  }

  function Evict(c: Config, s: State, sl: Slot): State
    requires CanEvict(c, s, sl)
  {
    var was := s.bk.vvTried[sl];
    var home := HomeSlot(c, s, was);
    var t := ClearNew(s.(bk := BkFromTried(s.bk, sl)), home);
    t.(bk := t.bk.(refs := t.bk.refs[was := 1], vvNew := t.bk.vvNew[home := was], nNew := t.bk.nNew + 1))
  }

  /** `MakeTried` after the entry has left the new table. */
  predicate CanMakeTried(c: Config, s: State, id: int) {
    && id in s.svc && id in s.bk.refs
    && var bk := RemoveFromNew(c, s.bk, id, s.svc[id]);
       && bk.refs[id] == 0
       && (TriedSlot(c, s.svc[id]) in bk.vvTried ==> CanEvict(c, Unlisted(c, s, id), TriedSlot(c, s.svc[id])))
  }

  /** The entry taken out of the new table and no longer counted there. */
  function Unlisted(c: Config, s: State, id: int): State
    requires id in s.svc && id in s.bk.refs
  {
    var bk := RemoveFromNew(c, s.bk, id, s.svc[id]);
    s.(bk := bk.(nNew := bk.nNew - 1))
  }

  function MakeTried(c: Config, s: State, id: int): State
    requires CanMakeTried(c, s, id)
  {
    var sl := TriedSlot(c, s.svc[id]);
    var t := Unlisted(c, s, id);
    var u := if sl in t.bk.vvTried then Evict(c, t, sl) else t;
    u.(bk := BkToTried(u.bk, sl, id))
  }

  /** Ids keep their address, are never reused, and tried slots once occupied stay so. */
  ghost predicate Grows(s: State, t: State) {
    && s.ix.nIdCount <= t.ix.nIdCount
    && (forall id :: id in t.svc ==> (id in s.svc && t.svc[id] == s.svc[id]) || id >= s.ix.nIdCount)
    && s.bk.vvTried.Keys <= t.bk.vvTried.Keys
  }

  lemma NotHeld(c: Config, svc: Services, bk: Books, limbo: set<int>, off: int, id: int, sl: Slot)
    requires BooksOk(c, svc, bk, limbo, off) && id in svc && bk.refs[id] == 0
    ensures sl in bk.vvNew ==> bk.vvNew[sl] != id
  {
    Unreferenced(bk.vvNew, id);
  }

  /** Clearing a slot leaves every other entry, and the tried table, alone. */
  lemma ClearNewFrame(s: State, sl: Slot, x: int)
    requires CanClear(s, sl) && (sl in s.bk.vvNew ==> s.bk.vvNew[sl] != x)
    ensures var t := ClearNew(s, sl);
      && (x in s.svc ==> x in t.svc && t.svc[x] == s.svc[x])
      && (x in s.bk.refs ==> x in t.bk.refs && t.bk.refs[x] == s.bk.refs[x])
      && (x in s.stats ==> x in t.stats && t.stats[x] == s.stats[x])
      && t.bk.tried == s.bk.tried && t.bk.vvTried == s.bk.vvTried && t.ix.nIdCount == s.ix.nIdCount
      && (forall y :: y in t.svc ==> y in s.svc && t.svc[y] == s.svc[y])
  {}

  /** The state while entry `was` is in neither table. */
  lemma EvictMiddle(c: Config, s: State, sl: Slot, id: int)
    requires Inv(c, s, {id}, 1) && sl in s.bk.vvTried && id in s.svc && id !in s.bk.tried && s.bk.refs[id] == 0
    ensures CanEvict(c, s, sl)
    ensures var was := s.bk.vvTried[sl];
      var home := HomeSlot(c, s, was);
      var m := s.(bk := BkFromTried(s.bk, sl));
      && was != id && s.bk.refs[was] == 0
      && (home in m.bk.vvNew ==> m.bk.vvNew[home] != id && m.bk.vvNew[home] != was)
      && Inv(c, ClearNew(m, home), {id, was}, 2) && home !in ClearNew(m, home).bk.vvNew
  {
    var was := s.bk.vvTried[sl];
    FromTriedBooks(c, s.svc, s.bk, {id}, 1, sl);
    var m := s.(bk := BkFromTried(s.bk, sl));
    assert {id} + {was} == {id, was};
    var home := HomeSlot(c, s, was);
    NotHeld(c, m.svc, m.bk, {id, was}, 2, id, home);
    NotHeld(c, m.svc, m.bk, {id, was}, 2, was, home);
    ClearNewKeeps(c, m, home, {id, was}, 2);
  }

  /** Eviction disturbs neither the entry being moved in nor any address, and frees the slot. */
  lemma EvictFrame(c: Config, s: State, sl: Slot, id: int)
    requires Inv(c, s, {id}, 1) && sl in s.bk.vvTried && id in s.svc && id !in s.bk.tried && s.bk.refs[id] == 0
    ensures CanEvict(c, s, sl)
    ensures var t := Evict(c, s, sl);
      && t.bk.vvTried == s.bk.vvTried - {sl}
      && id in t.svc && t.svc[id] == s.svc[id] && id !in t.bk.tried && id in t.bk.refs && t.bk.refs[id] == 0
      && id in t.stats && t.stats[id] == s.stats[id]
      && (forall x :: x in t.svc ==> x in s.svc && t.svc[x] == s.svc[x])
      && t.ix.nIdCount == s.ix.nIdCount
  {
    EvictMiddle(c, s, sl, id);
    ClearNewFrame(s.(bk := BkFromTried(s.bk, sl)), HomeSlot(c, s, s.bk.vvTried[sl]), id);
  }

  /** An entry that is in neither table enters the new one at a free slot of its own. */
  lemma Relist(c: Config, t: State, home: Slot, was: int, id: int)
    requires Inv(c, t, {id, was}, 2) && home !in t.bk.vvNew && was != id
    requires was in t.svc && was !in t.bk.tried && t.bk.refs[was] == 0
    requires home.bucket < c.newBuckets && home == NewSlot(c, home.bucket, t.svc[was])
    ensures Inv(c, t.(bk := t.bk.(refs := t.bk.refs[was := 1], vvNew := t.bk.vvNew[home := was],
      nNew := t.bk.nNew + 1)), {id}, 1)
  {
    RefBooks(c, t.svc, t.bk, {id, was}, 2, home, was);
    assert {id, was} - {was} == {id};
  }

  lemma EvictKeeps(c: Config, s: State, sl: Slot, id: int)
    requires Inv(c, s, {id}, 1) && sl in s.bk.vvTried && id in s.svc && id !in s.bk.tried && s.bk.refs[id] == 0
    ensures CanEvict(c, s, sl) && Inv(c, Evict(c, s, sl), {id}, 1)
  {
    EvictMiddle(c, s, sl, id);
    var was := s.bk.vvTried[sl];
    var home := HomeSlot(c, s, was);
    var m := s.(bk := BkFromTried(s.bk, sl));
    var t := ClearNew(m, home);
    ClearNewFrame(m, home, was);
    Relist(c, t, home, was, id);
  }

  lemma PutBack(v: Table, sl: Slot, id: int)
    ensures (v - {sl})[sl := id] == v[sl := id]
  {}

  lemma UnlistedKeeps(c: Config, s: State, id: int)
    requires Consistent(c, s) && id in s.svc && id !in s.bk.tried
    ensures Inv(c, Unlisted(c, s, id), {id}, 1) && Unlisted(c, s, id).bk.refs[id] == 0
  {
    RemoveFromNewKeeps(c, s.svc, s.bk, id, {}, 0);
    assert {} + {id} == {id};
  }

  /** Moving an entry to the tried table keeps everything consistent and fails no assertion. */
  lemma MakeTriedKeeps(c: Config, s: State, id: int)
    requires Consistent(c, s) && id in s.svc && id !in s.bk.tried && s.stats[id].nLastSuccess != 0
    ensures CanMakeTried(c, s, id) && Consistent(c, MakeTried(c, s, id))
    ensures var t := MakeTried(c, s, id);
      && Grows(s, t) && id in t.bk.tried && t.bk.vvTried == s.bk.vvTried[TriedSlot(c, s.svc[id]) := id]
      && t.collisions == s.collisions
  {
    var sl := TriedSlot(c, s.svc[id]);
    UnlistedKeeps(c, s, id);
    var t := Unlisted(c, s, id);
    if sl in t.bk.vvTried {
      EvictKeeps(c, t, sl, id);
      EvictFrame(c, t, sl, id);
    }
    var u := if sl in t.bk.vvTried then Evict(c, t, sl) else t;
    ToTriedBooks(c, u.svc, u.bk, {id}, 1, id);
    assert {id} - {id} == {};
    PutBack(s.bk.vvTried, sl, id);
  }

  // ------------------------------------------------------ public operations

  /** Whether some new bucket holds the entry, as the search in `Good_` looks for it. */
  predicate FoundInNew(c: Config, s: State, id: int)
    requires id in s.svc
  {
    exists b: nat :: b < c.newBuckets && NewSlot(c, b, s.svc[id]) in s.bk.vvNew &&
      s.bk.vvNew[NewSlot(c, b, s.svc[id])] == id
  }

  /** The entry's statistics after a successful connection. */
  function Marked(s: State, id: int, time: int): State
    requires id in s.stats
  {
    SetStat(s, id, s.stats[id].(nLastSuccess := time, nLastTry := time, nAttempts := 0)).(nLastGood := time)
  }

  /** The second half of `Good_`: move the entry to the tried table, or queue it as a collision. */
  function Settle(c: Config, s: State, id: int, testBeforeEvict: bool): State
    requires Consistent(c, s) && id in s.svc && s.stats[id].nLastSuccess != 0
  {
    if id in s.bk.tried || !FoundInNew(c, s, id) then s
    else if testBeforeEvict && TriedSlot(c, s.svc[id]) in s.bk.vvTried then
      if |s.collisions| < SET_TRIED_COLLISION_SIZE then s.(collisions := s.collisions + {id}) else s
    else
      MakeTriedKeeps(c, s, id);
      MakeTried(c, s, id)
  }

  /** `Good_`. */
  function Good(c: Config, s: State, a: Service, testBeforeEvict: bool, time: int): State
    requires Consistent(c, s) && time > 0
  {
    var f := Find(s, a.ip);
    if f.None? || s.svc[f.value] != a then s.(nLastGood := time)
    else
      MarkedKeeps(c, s, f.value, time);
      Settle(c, Marked(s, f.value, time), f.value, testBeforeEvict)
  }

  lemma MarkedKeeps(c: Config, s: State, id: int, time: int)
    requires Consistent(c, s) && id in s.svc && time > 0
    ensures Consistent(c, Marked(s, id, time))
  {
    assert Marked(s, id, time).stats.Keys == s.stats.Keys;
  }

  /** The part of `Add_` that files entry `id` under the bucket chosen by `source`. */
  function File(c: Config, s: State, id: int, source: NetAddr, now: int): State
    requires Inv(c, s, {id}, 0) && id in s.svc && id !in s.bk.tried
  {
    var sl := NewSlot(c, NewBucket(c, s.svc[id], source), s.svc[id]);
    if sl in s.bk.vvNew && s.bk.vvNew[sl] == id then s
    else if sl !in s.bk.vvNew || IsTerrible(s.stats[s.bk.vvNew[sl]], now)
            || (s.bk.refs[s.bk.vvNew[sl]] > 1 && s.bk.refs[id] == 0) then
      ClearNewKeeps(c, s, sl, {id}, 0);
      var t := ClearNew(s, sl);
      ClearNewFrame(s, sl, id);
      t.(bk := BkRef(t.bk, sl, id))
    else if s.bk.refs[id] == 0 then
      DeleteKeeps(c, s, id, {id}, 0);
      Delete(s, id)
    else s
  }

  /** The statistics of a known entry after hearing about it again. */
  function Heard(i: Stat, a: Address, penalty: int, now: int): Stat {
    var interval := if now - a.nTime < 24 * 60 * 60 then 60 * 60 else 24 * 60 * 60;
    var time :=
      if a.nTime != 0 && (i.nTime == 0 || i.nTime < a.nTime - interval - penalty)
      then U32(Max(0, a.nTime - penalty)) else i.nTime;
    i.(nTime := time, nServices := i.nServices + a.nServices)
  }

  /** `Add_`; `lucky` is the outcome of the draw that makes further references rarer. */
  function Add(c: Config, s: State, a: Address, source: NetAddr, timePenalty: int, now: int, lucky: bool): (State, bool)
    requires Consistent(c, s)
  {
    if !c.routable(a.service.ip) then (s, false)
    else
      var penalty := if a.service.ip == source then 0 else timePenalty;
      var f := Find(s, a.service.ip);
      if f.Some? then
        var id := f.value;
        var i := Heard(s.stats[id], a, penalty, now);
        var s1 := SetStat(s, id, i);
        if a.nTime == 0 || (i.nTime != 0 && a.nTime <= i.nTime) then (s1, false)
        else if id in s.bk.tried then (s1, false)
        else if s.bk.refs[id] == NEW_BUCKETS_PER_ADDRESS then (s1, false)
        else if s.bk.refs[id] > 0 && !lucky then (s1, false)
        else (HeardInv(c, s, id, i); File(c, s1, id, source, now), false)
      else
        var id := s.ix.nIdCount;
        CreateInv(c, s, a, source, penalty);
        (File(c, Created(s, a, source, penalty), id, source, now), true)
  }

  /** `Create`, the entry counted as new and its time moved back by the penalty. */
  function Created(s: State, a: Address, source: NetAddr, penalty: int): State {
    var id := s.ix.nIdCount;
    s.(svc := s.svc[id := a.service],
       ix := IxCreate(s.ix, a.service.ip),
       bk := BkCreate(s.bk, id).(nNew := s.bk.nNew + 1),
       stats := s.stats[id := Stat(U32(Max(0, a.nTime - penalty)), a.nServices, source, 0, 0, 0, 0)])
  }

  lemma CreateInv(c: Config, s: State, a: Address, source: NetAddr, penalty: int)
    requires Consistent(c, s) && Find(s, a.service.ip).None?
    ensures var t := Created(s, a, source, penalty);
      && Inv(c, t, {s.ix.nIdCount}, 0) && s.ix.nIdCount in t.svc && s.ix.nIdCount !in t.bk.tried
      && t.bk.refs[s.ix.nIdCount] == 0 && Grows(s, t)
  {
    var id := s.ix.nIdCount;
    CreateIndex(s.svc, s.ix, a.service);
    CreateBooks(c, s.svc, s.bk, {}, 0, id, a.service);
    assert {} + {id} == {id};
    CreateStats(s.svc, s.bk.tried, s.stats, id, a.service, Created(s, a, source, penalty).stats[id]);
  }

  lemma CreateStats(svc: Services, tried: set<int>, stats: map<int, Stat>, id: int, a: Service, i: Stat)
    requires StatsOk(svc, tried, stats) && id !in svc && tried <= svc.Keys && i.nLastTry >= 0 && i.nLastSuccess >= 0
    ensures StatsOk(svc[id := a], tried, stats[id := i])
  {}

  /** Changing the statistics of one entry. */
  lemma StatKeeps(c: Config, s: State, id: int, i: Stat)
    requires Consistent(c, s) && id in s.svc && i.nLastTry >= 0 && i.nLastSuccess >= 0
    requires (id in s.bk.tried ==> i.nLastSuccess != 0)
    ensures Consistent(c, SetStat(s, id, i))
  {
    assert s.stats[id := i].Keys == s.stats.Keys;
  }

  lemma HeardInv(c: Config, s: State, id: int, i: Stat)
    requires Consistent(c, s) && id in s.svc && i.nLastTry == s.stats[id].nLastTry
    requires i.nLastSuccess == s.stats[id].nLastSuccess
    ensures Inv(c, SetStat(s, id, i), {id}, 0) && Consistent(c, SetStat(s, id, i))
  {
    StatKeeps(c, s, id, i);
  }

  /** Putting an entry into the slot its source chooses, in place of whatever is there. */
  lemma FileInsert(c: Config, s: State, id: int, sl: Slot)
    requires Inv(c, s, {id}, 0) && id in s.svc && id !in s.bk.tried && s.bk.refs[id] < NEW_BUCKETS_PER_ADDRESS
    requires sl.bucket < c.newBuckets && sl == NewSlot(c, sl.bucket, s.svc[id])
    requires (sl in s.bk.vvNew ==> s.bk.vvNew[sl] != id)
    ensures CanClear(s, sl) && id in ClearNew(s, sl).bk.refs
    ensures var t := ClearNew(s, sl); Consistent(c, t.(bk := BkRef(t.bk, sl, id)))
  {
    ClearNewKeeps(c, s, sl, {id}, 0);
    ClearNewFrame(s, sl, id);
    var t := ClearNew(s, sl);
    RefBooks(c, t.svc, t.bk, {id}, 0, sl, id);
    assert {id} - {id} == {};
  }

  lemma NotLoose(c: Config, s: State, id: int)
    requires Inv(c, s, {id}, 0) && id in s.svc && s.bk.refs[id] > 0
    ensures Consistent(c, s)
  {}

  /** Filing an entry leaves no loose end: it is referenced afterwards, or gone. */
  lemma FileKeeps(c: Config, s: State, id: int, source: NetAddr, now: int)
    requires Inv(c, s, {id}, 0) && id in s.svc && id !in s.bk.tried && s.bk.refs[id] < NEW_BUCKETS_PER_ADDRESS
    ensures Consistent(c, File(c, s, id, source, now))
  {
    var sl := NewSlot(c, NewBucket(c, s.svc[id], source), s.svc[id]);
    var t := File(c, s, id, source, now);
    if sl in s.bk.vvNew && s.bk.vvNew[sl] == id {
      assert sl in RefSlots(s.bk.vvNew, id);
      NotLoose(c, s, id);
      assert t == s;
    } else if sl !in s.bk.vvNew || IsTerrible(s.stats[s.bk.vvNew[sl]], now)
              || (s.bk.refs[s.bk.vvNew[sl]] > 1 && s.bk.refs[id] == 0) {
      FileInsert(c, s, id, sl);
      assert t == var u := ClearNew(s, sl); u.(bk := BkRef(u.bk, sl, id));
    } else if s.bk.refs[id] == 0 {
      DeleteKeeps(c, s, id, {id}, 0);
      assert {id} - {id} == {};
      assert t == Delete(s, id);
    } else {
      NotLoose(c, s, id);
      assert t == s;
    }
  }

  lemma FileGrows(c: Config, s: State, id: int, source: NetAddr, now: int)
    requires Inv(c, s, {id}, 0) && id in s.svc && id !in s.bk.tried
    ensures var t := File(c, s, id, source, now);
      Grows(s, t) && t.bk.vvTried == s.bk.vvTried && t.collisions == s.collisions
  {
    var sl := NewSlot(c, NewBucket(c, s.svc[id], source), s.svc[id]);
    var t := File(c, s, id, source, now);
    if sl in s.bk.vvNew && s.bk.vvNew[sl] == id { assert t == s; }
    else if sl !in s.bk.vvNew || IsTerrible(s.stats[s.bk.vvNew[sl]], now)
            || (s.bk.refs[s.bk.vvNew[sl]] > 1 && s.bk.refs[id] == 0) {
      ClearNewKeeps(c, s, sl, {id}, 0);
      ClearNewFrame(s, sl, id);
      assert t == var u := ClearNew(s, sl); u.(bk := BkRef(u.bk, sl, id));
    } else if s.bk.refs[id] == 0 {
      DeleteKeeps(c, s, id, {id}, 0);
      assert t == Delete(s, id);
    } else { assert t == s; }
  }

  /** Who wins the slot: the entry takes it when it is free, or its occupant is terrible, or the
      occupant is listed elsewhere too and the entry nowhere; the loser survives only if listed elsewhere. */
  lemma FileMeans(c: Config, s: State, id: int, source: NetAddr, now: int)
    requires Inv(c, s, {id}, 0) && id in s.svc && id !in s.bk.tried && s.bk.refs[id] < NEW_BUCKETS_PER_ADDRESS
    ensures var t := File(c, s, id, source, now);
      var sl := NewSlot(c, NewBucket(c, s.svc[id], source), s.svc[id]);
      && (sl !in s.bk.vvNew ==> t.bk.vvNew == s.bk.vvNew[sl := id] && id in t.svc)
      && (sl in s.bk.vvNew && s.bk.vvNew[sl] != id ==>
            var rival := s.bk.vvNew[sl];
            if IsTerrible(s.stats[rival], now) || (s.bk.refs[rival] > 1 && s.bk.refs[id] == 0)
            then sl in t.bk.vvNew && t.bk.vvNew[sl] == id && id in t.svc && (rival in t.svc <==> s.bk.refs[rival] > 1)
            else t.bk.vvNew == s.bk.vvNew && rival in t.svc && (id in t.svc <==> s.bk.refs[id] > 0))
  {
    var sl := NewSlot(c, NewBucket(c, s.svc[id], source), s.svc[id]);
    var t := File(c, s, id, source, now);
    if sl !in s.bk.vvNew || s.bk.vvNew[sl] != id {
      if sl !in s.bk.vvNew || IsTerrible(s.stats[s.bk.vvNew[sl]], now) ||
        (s.bk.refs[s.bk.vvNew[sl]] > 1 && s.bk.refs[id] == 0) {
        ClearNewKeeps(c, s, sl, {id}, 0);
        ClearNewFrame(s, sl, id);
        PutBack(s.bk.vvNew, sl, id);
        assert t == var u := ClearNew(s, sl); u.(bk := BkRef(u.bk, sl, id));
      } else if s.bk.refs[id] == 0 {
        DeleteKeeps(c, s, id, {id}, 0);
        assert t == Delete(s, id);
      }
    }
  }

  lemma AddKnown(c: Config, s: State, id: int, i: Stat, source: NetAddr, now: int)
    requires Consistent(c, s) && id in s.svc && i.nLastTry == s.stats[id].nLastTry
    requires i.nLastSuccess == s.stats[id].nLastSuccess
    ensures Consistent(c, SetStat(s, id, i))
    ensures id !in s.bk.tried && s.bk.refs[id] != NEW_BUCKETS_PER_ADDRESS ==>
              && Inv(c, SetStat(s, id, i), {id}, 0)
              && var t := File(c, SetStat(s, id, i), id, source, now);
                 Consistent(c, t) && Grows(s, t) && t.bk.vvTried == s.bk.vvTried && t.collisions == s.collisions
  {
    HeardInv(c, s, id, i);
    if id !in s.bk.tried && s.bk.refs[id] != NEW_BUCKETS_PER_ADDRESS {
      FileKeeps(c, SetStat(s, id, i), id, source, now);
      FileGrows(c, SetStat(s, id, i), id, source, now);
    }
  }

  lemma AddUnknown(c: Config, s: State, a: Address, source: NetAddr, penalty: int, now: int)
    requires Consistent(c, s) && Find(s, a.service.ip).None?
    ensures Inv(c, Created(s, a, source, penalty), {s.ix.nIdCount}, 0)
    ensures var t := File(c, Created(s, a, source, penalty), s.ix.nIdCount, source, now);
      Consistent(c, t) && Grows(s, t) && t.bk.vvTried == s.bk.vvTried && t.collisions == s.collisions
  {
    CreateInv(c, s, a, source, penalty);
    FileKeeps(c, Created(s, a, source, penalty), s.ix.nIdCount, source, now);
    FileGrows(c, Created(s, a, source, penalty), s.ix.nIdCount, source, now);
  }

  lemma AddKeeps(c: Config, s: State, a: Address, source: NetAddr, timePenalty: int, now: int, lucky: bool, t: State)
    requires Consistent(c, s) && t == Add(c, s, a, source, timePenalty, now, lucky).0
    ensures Consistent(c, t) && Grows(s, t) && t.collisions == s.collisions
  {
    if c.routable(a.service.ip) {
      var penalty := if a.service.ip == source then 0 else timePenalty;
      var f := Find(s, a.service.ip);
      if f.Some? { AddKnown(c, s, f.value, Heard(s.stats[f.value], a, penalty, now), source, now); }
      else { AddUnknown(c, s, a, source, penalty, now); }
    }
  }

  /** A consistent untried entry is always found by the search in `Good_`. */
  lemma AlwaysFound(c: Config, s: State, id: int)
    requires Consistent(c, s) && id in s.svc && id !in s.bk.tried
    ensures FoundInNew(c, s, id)
  {
    assert s.bk.refs[id] >= 1;
    if RefSlots(s.bk.vvNew, id) == {} { assert false; }
    var sl :| sl in RefSlots(s.bk.vvNew, id);
    assert NewSlot(c, sl.bucket, s.svc[id]) == sl;
  }

  lemma SettleKeeps(c: Config, s: State, id: int, testBeforeEvict: bool)
    requires Consistent(c, s) && id in s.svc && s.stats[id].nLastSuccess != 0
    ensures Consistent(c, Settle(c, s, id, testBeforeEvict))
  {
    var t := Settle(c, s, id, testBeforeEvict);
    if id in s.bk.tried || !FoundInNew(c, s, id) { assert t == s; }
    else if testBeforeEvict && TriedSlot(c, s.svc[id]) in s.bk.vvTried {
      assert t == s || t == s.(collisions := s.collisions + {id});
    } else {
      MakeTriedKeeps(c, s, id);
      assert t == MakeTried(c, s, id);
    }
  }

  /** Settling either leaves the pending collisions alone or queues the entry behind a taken slot. */
  lemma SettleGrows(c: Config, s: State, id: int, testBeforeEvict: bool)
    requires Consistent(c, s) && id in s.svc && s.stats[id].nLastSuccess != 0
    ensures Grows(s, Settle(c, s, id, testBeforeEvict))
    ensures Queued(c, s, Settle(c, s, id, testBeforeEvict), id, testBeforeEvict)
  {
    var t := Settle(c, s, id, testBeforeEvict);
    var sl := TriedSlot(c, s.svc[id]);
    if id in s.bk.tried || !FoundInNew(c, s, id) { assert t == s; }
    else if testBeforeEvict && sl in s.bk.vvTried {
      assert t == s || t == s.(collisions := s.collisions + {id});
    } else {
      MakeTriedKeeps(c, s, id);
      assert t == MakeTried(c, s, id);
    }
  }

  ghost predicate Queued(c: Config, s: State, t: State, id: int, testBeforeEvict: bool) {
    t.collisions == s.collisions ||
    (testBeforeEvict && t.collisions == s.collisions + {id} && |s.collisions| < SET_TRIED_COLLISION_SIZE
     && t.svc == s.svc && id in s.svc && TriedSlot(c, s.svc[id]) in t.bk.vvTried)
  }

  /** What settling an entry comes to. */
  ghost predicate Settled(c: Config, s: State, t: State, id: int, testBeforeEvict: bool)
    requires id in s.svc
  {
    var sl := TriedSlot(c, s.svc[id]);
    if id in s.bk.tried then t == s
    else if testBeforeEvict && sl in s.bk.vvTried then
      t == s.(collisions := if |s.collisions| < SET_TRIED_COLLISION_SIZE then s.collisions + {id} else s.collisions)
    else
      && id in t.bk.tried && t.bk.vvTried == s.bk.vvTried[sl := id]
      && (sl in s.bk.vvTried ==> EvictedHome(c, s, t, s.bk.vvTried[sl]))
  }

  /** The entry ends up in the tried table, with the former occupant of its slot filed under new,
      or waits among the collisions because the slot is taken and must be tested first. */
  lemma SettleMeans(c: Config, s: State, id: int, testBeforeEvict: bool)
    requires Consistent(c, s) && id in s.svc && s.stats[id].nLastSuccess != 0
    ensures Settled(c, s, Settle(c, s, id, testBeforeEvict), id, testBeforeEvict)
  {
    if id !in s.bk.tried {
      AlwaysFound(c, s, id);
      MakeTriedKeeps(c, s, id);
      UnlistedKeeps(c, s, id);
      if TriedSlot(c, s.svc[id]) in s.bk.vvTried {
        EvictedGoesHome(c, Unlisted(c, s, id), TriedSlot(c, s.svc[id]), id);
      }
    }
  }

  lemma GoodKeeps(c: Config, s: State, a: Service, testBeforeEvict: bool, time: int)
    requires Consistent(c, s) && time > 0
    ensures var t := Good(c, s, a, testBeforeEvict, time);
      && Consistent(c, t) && Grows(s, t)
      && (t.collisions == s.collisions ||
        (Find(s, a.ip).Some? && Queued(c, s, t, Find(s, a.ip).value, testBeforeEvict)))
  {
    var f := Find(s, a.ip);
    var t := Good(c, s, a, testBeforeEvict, time);
    if f.Some? && s.svc[f.value] == a {
      MarkedKeeps(c, s, f.value, time);
      SettleKeeps(c, Marked(s, f.value, time), f.value, testBeforeEvict);
      SettleGrows(c, Marked(s, f.value, time), f.value, testBeforeEvict);
      assert t == Settle(c, Marked(s, f.value, time), f.value, testBeforeEvict);
    } else {
      assert t == s.(nLastGood := time);
    }
  }

  /** `Good_` on a known service marks the entry and settles it. */
  lemma GoodMeans(c: Config, s: State, id: int, testBeforeEvict: bool, time: int)
    requires Consistent(c, s) && time > 0 && id in s.svc
    ensures var m := Marked(s, id, time);
      && Consistent(c, m)
      && Settled(c, m, Good(c, s, s.svc[id], testBeforeEvict, time), id, testBeforeEvict)
  {
    MarkedKeeps(c, s, id, time);
    SettleMeans(c, Marked(s, id, time), id, testBeforeEvict);
    assert Find(s, s.svc[id].ip) == Some(id);
  }

  /** An evicted entry is back in the new table, once, where its source hashes it. */
  ghost predicate EvictedHome(c: Config, s: State, t: State, was: int) {
    && was in s.svc && was in s.stats && was in t.svc && was !in t.bk.tried
    && was in t.bk.refs && t.bk.refs[was] == 1
    && HomeSlot(c, s, was) in t.bk.vvNew && t.bk.vvNew[HomeSlot(c, s, was)] == was
  }

  lemma EvictedGoesHome(c: Config, s: State, sl: Slot, id: int)
    requires Inv(c, s, {id}, 1) && sl in s.bk.vvTried && id in s.svc && id !in s.bk.tried && s.bk.refs[id] == 0
    ensures CanEvict(c, s, sl) && s.bk.vvTried[sl] != id && EvictedHome(c, s, Evict(c, s, sl), s.bk.vvTried[sl])
  {
    EvictMiddle(c, s, sl, id);
    ClearNewFrame(s.(bk := BkFromTried(s.bk, sl)), HomeSlot(c, s, s.bk.vvTried[sl]), s.bk.vvTried[sl]);
  }

  // ------------------------------------------------------- smaller operations

  function Attempt(s: State, a: Service, countFailure: bool, time: int): State {
    var f := Find(s, a.ip);
    if f.None? || s.svc[f.value] != a || f.value !in s.stats then s
    else
      var i := s.stats[f.value].(nLastTry := time);
      SetStat(s, f.value,
              if countFailure && i.nLastCountAttempt < s.nLastGood
              then i.(nLastCountAttempt := time, nAttempts := i.nAttempts + 1) else i)
  }

  function Connected(s: State, a: Service, time: int): State {
    var f := Find(s, a.ip);
    if f.None? || s.svc[f.value] != a || f.value !in s.stats then s
    else if time - s.stats[f.value].nTime > 20 * 60 then SetStat(s, f.value, s.stats[f.value].(nTime := U32(time)))
    else s
  }

  function SetServices(s: State, a: Service, services: Flags): State {
    var f := Find(s, a.ip);
    if f.None? || s.svc[f.value] != a || f.value !in s.stats then s
    else SetStat(s, f.value, s.stats[f.value].(nServices := services))
  }

  lemma AttemptKeeps(c: Config, s: State, a: Service, countFailure: bool, time: int, t: State)
    requires Consistent(c, s) && time >= 0 && t == Attempt(s, a, countFailure, time)
    ensures Consistent(c, t) && t == s.(stats := t.stats)
  {
    var f := Find(s, a.ip);
    if f.Some? && s.svc[f.value] == a { StatKeeps(c, s, f.value, t.stats[f.value]); }
  }

  lemma ConnectedKeeps(c: Config, s: State, a: Service, time: int, t: State)
    requires Consistent(c, s) && time >= 0 && t == Connected(s, a, time)
    ensures Consistent(c, t) && t == s.(stats := t.stats)
  {
    var f := Find(s, a.ip);
    if f.Some? && s.svc[f.value] == a { StatKeeps(c, s, f.value, s.stats[f.value].(nTime := U32(time))); }
  }

  lemma SetServicesKeeps(c: Config, s: State, a: Service, services: Flags, t: State)
    requires Consistent(c, s) && t == SetServices(s, a, services)
    ensures Consistent(c, t) && t == s.(stats := t.stats)
  {
    var f := Find(s, a.ip);
    if f.Some? && s.svc[f.value] == a { StatKeeps(c, s, f.value, s.stats[f.value].(nServices := services)); }
  }

  // ------------------------------------------------------------------ GetAddr

  function Collect(ix: Index, stats: map<int, Stat>, n: nat, acc: seq<int>, now: int): seq<int>
    requires n < |ix.vRandom| && ix.vRandom[n] in stats
  {
    if IsTerrible(stats[ix.vRandom[n]], now) then acc else acc + [ix.vRandom[n]]
  }

  function GetAddrCap(size: nat): nat {
    var n := GETADDR_MAX_PCT * size / 100;
    if n > GETADDR_MAX then GETADDR_MAX else n
  }

  /** Those of `ids` good enough to hand out, in order. */
  function Worthy(stats: map<int, Stat>, ids: seq<int>, now: int): seq<int> {
    if ids == [] then []
    else
      var last := ids[|ids| - 1];
      Worthy(stats, ids[..|ids| - 1], now) + (if last in stats && !IsTerrible(stats[last], now) then [last] else [])
  }

  lemma WorthyStep(ix: Index, was: Index, stats: map<int, Stat>, n: nat, acc: seq<int>, now: int)
    requires n < |ix.vRandom| == |was.vRandom| && ix.vRandom[..n] == was.vRandom[..n] && ix.vRandom[n] in stats
    requires acc == Worthy(stats, was.vRandom[..n], now)
    ensures Collect(ix, stats, n, acc, now) == Worthy(stats, ix.vRandom[..n + 1], now)
  {
    assert ix.vRandom[..n + 1][..n] == ix.vRandom[..n];
  }

  /** The entries handed out sit before position `n` of the shuffle, each once. */
  ghost predicate Passed(ix: Index, n: nat, acc: seq<int>) {
    Before(ix, n, acc) && Distinct(acc)
  }

  ghost predicate Before(ix: Index, n: nat, acc: seq<int>) {
    forall id :: id in acc ==> id in ix.pos && ix.pos[id] < n
  }

  predicate Distinct(acc: seq<int>) { forall j, k :: 0 <= j < k < |acc| ==> acc[j] != acc[k] }

  ghost predicate NoneTerrible(stats: map<int, Stat>, acc: seq<int>, now: int) {
    forall k :: 0 <= k < |acc| ==> acc[k] in stats && !IsTerrible(stats[acc[k]], now)
  }

  lemma PassSwap(svc: Services, ix: Index, n: nat, r: nat, acc: seq<int>)
    requires IndexOk(svc, ix) && n <= r < |ix.vRandom| && Passed(ix, n, acc)
    ensures CanSwap(ix, n, r) && Passed(IxSwap(ix, n, r), n, acc)
  {
    SwapIndex(svc, ix, n, r);
    forall id | id in acc ensures id in ix.pos && IxSwap(ix, n, r).pos[id] == ix.pos[id] {
      assert HasPlace(ix.pos, ix.vRandom, id) && HasId(ix.pos, ix.vRandom, n) && HasId(ix.pos, ix.vRandom, r);
    }
  }

  lemma PassCollect(svc: Services, ix: Index, stats: map<int, Stat>, n: nat, acc: seq<int>, now: int)
    requires IndexOk(svc, ix) && stats.Keys == svc.Keys && n < |ix.vRandom|
    requires Passed(ix, n, acc) && NoneTerrible(stats, acc, now)
    ensures ix.vRandom[n] in stats
    ensures Passed(ix, n + 1, Collect(ix, stats, n, acc, now))
    ensures NoneTerrible(stats, Collect(ix, stats, n, acc, now), now)
  {
    assert HasId(ix.pos, ix.vRandom, n);
  }

  /** The loop of `GetAddr_` after `n` draws. */
  ghost predicate Gathering(svc: Services, ix: Index, stats: map<int, Stat>, n: nat, acc: seq<int>, now: int) {
    && IndexOk(svc, ix) && stats.Keys == svc.Keys && n <= |ix.vRandom|
    && Passed(ix, n, acc) && NoneTerrible(stats, acc, now) && acc == Worthy(stats, ix.vRandom[..n], now)
  }

  ghost predicate SameShape(ix: Index, was: Index) { |ix.vRandom| == |was.vRandom| && ix.nIdCount == was.nIdCount }

  lemma CollectStep(svc: Services, ix: Index, stats: map<int, Stat>, n: nat, r: nat, acc: seq<int>, now: int)
    requires Gathering(svc, ix, stats, n, acc, now) && n <= r < |ix.vRandom|
    ensures CanSwap(ix, n, r) && SameShape(IxSwap(ix, n, r), ix) && IxSwap(ix, n, r).vRandom[n] in stats
    ensures var t := IxSwap(ix, n, r); Gathering(svc, t, stats, n + 1, Collect(t, stats, n, acc, now), now)
  {
    SwapIndex(svc, ix, n, r);
    PassSwap(svc, ix, n, r, acc);
    PassCollect(svc, IxSwap(ix, n, r), stats, n, acc, now);
    assert IxSwap(ix, n, r).vRandom[..n] == ix.vRandom[..n];
    WorthyStep(IxSwap(ix, n, r), ix, stats, n, acc, now);
  }

  /** A reordered index keeps everything else. */
  lemma ReindexKeeps(c: Config, s: State, ix: Index)
    requires Consistent(c, s) && IndexOk(s.svc, ix) && SameShape(ix, s.ix)
    ensures Consistent(c, s.(ix := ix)) && Grows(s, s.(ix := ix))
  {}

  lemma CapMeans(size: nat)
    ensures GetAddrCap(size) <= GETADDR_MAX && 100 * GetAddrCap(size) <= GETADDR_MAX_PCT * size
  {}

  /** One swap of the shuffle, as `GetAddr_` makes them. */
  function Shuffle(s: State, i: nat, j: nat): State
    requires CanSwap(s.ix, i, j)
  {
    s.(ix := IxSwap(s.ix, i, j))
  }

  lemma ShuffleKeeps(c: Config, s: State, i: nat, j: nat)
    requires Consistent(c, s) && i < |s.ix.vRandom| && j < |s.ix.vRandom|
    ensures CanSwap(s.ix, i, j) && Consistent(c, Shuffle(s, i, j)) && Grows(s, Shuffle(s, i, j))
  {
    SwapIndex(s.svc, s.ix, i, j);
  }

  // --------------------------------------------------------------- collisions

  /** `ResolveCollisions_` for one pending entry. */
  function ResolveOne(c: Config, s: State, id: int, now: int): State
    requires Consistent(c, s) && now > 0
  {
    if id !in s.svc || !c.valid(s.svc[id].ip) then Unqueue(s, id)
    else
      var sl := TriedSlot(c, s.svc[id]);
      if sl in s.bk.vvTried then
        var i := s.stats[s.bk.vvTried[sl]];
        if now - i.nLastSuccess < REPLACEMENT_SECONDS then Unqueue(s, id)
        else if now - i.nLastTry < REPLACEMENT_SECONDS then
          if now - i.nLastTry > 60 then Unqueue(Good(c, s, s.svc[id], false, now), id) else s
        else if now - s.stats[id].nLastSuccess > TEST_WINDOW then Unqueue(Good(c, s, s.svc[id], false, now), id)
        else s
      else Unqueue(Good(c, s, s.svc[id], false, now), id)
  }

  function Unqueue(s: State, id: int): State { s.(collisions := s.collisions - {id}) }

  /** `ResolveCollisions_` over the pending entries in order. */
  function Resolve(c: Config, s: State, ids: seq<int>, now: int): State
    requires Consistent(c, s) && now > 0
    decreases |ids|
  {
    if ids == [] then s
    else
      ResolveOneKeeps(c, s, ids[0], now);
      Resolve(c, ResolveOne(c, s, ids[0], now), ids[1..], now)
  }

  lemma ResolveOneKeeps(c: Config, s: State, id: int, now: int)
    requires Consistent(c, s) && now > 0
    ensures var t := ResolveOne(c, s, id, now);
      Consistent(c, t) && Grows(s, t) && (t.collisions == s.collisions || t.collisions == s.collisions - {id})
  {
    var t := ResolveOne(c, s, id, now);
    if id in s.svc {
      GoodKeeps(c, s, s.svc[id], false, now);
      assert t == s || t == Unqueue(s, id) || t == Unqueue(Good(c, s, s.svc[id], false, now), id);
    }
  }

  lemma GrowsTransitive(s: State, t: State, u: State)
    requires Grows(s, t) && Grows(t, u)
    ensures Grows(s, u)
  {}

  lemma {:induction false} ResolveKeeps(c: Config, s: State, ids: seq<int>, now: int)
    requires Consistent(c, s) && now > 0
    ensures var t := Resolve(c, s, ids, now); Consistent(c, t) && Grows(s, t) && t.collisions <= s.collisions
    decreases |ids|
  {
    if ids != [] {
      ResolveOneKeeps(c, s, ids[0], now);
      var t := ResolveOne(c, s, ids[0], now);
      ResolveKeeps(c, t, ids[1..], now);
      GrowsTransitive(s, t, Resolve(c, t, ids[1..], now));
    }
  }

  /** At most ten pending entries; each was given out as an id, and if it still exists its slot in
      the tried table is occupied. */
  ghost predicate CollisionsOk(c: Config, s: State) {
    && |s.collisions| <= SET_TRIED_COLLISION_SIZE
    && (forall id :: id in s.collisions ==> 0 <= id < s.ix.nIdCount)
    && (forall id :: id in s.collisions && id in s.svc ==> TriedSlot(c, s.svc[id]) in s.bk.vvTried)
  }

  /** Since ids are not reused and tried slots stay occupied, pending entries stay answerable. */
  lemma CollisionsKeep(c: Config, s: State, t: State)
    requires CollisionsOk(c, s) && Grows(s, t) && t.collisions <= s.collisions
    ensures CollisionsOk(c, t)
  {
    SubsetSize(t.collisions, s.collisions);
  }

  lemma CollisionsQueue(c: Config, s: State, t: State, id: int, testBeforeEvict: bool)
    requires CollisionsOk(c, s) && Consistent(c, s) && Grows(s, t) && Queued(c, s, t, id, testBeforeEvict)
    ensures CollisionsOk(c, t)
  {
    if t.collisions != s.collisions {
      assert |s.collisions + {id}| <= |s.collisions| + 1;
    } else {
      CollisionsKeep(c, s, t);
    }
  }

  /** `SelectTriedCollision_` for a chosen pending entry always reads a slot that holds a real
      tried entry: the bogus `mapInfo[-1]` is never touched. */
  lemma SelectReadsTried(c: Config, s: State, id: int)
    requires Consistent(c, s) && CollisionsOk(c, s) && id in s.collisions && id in s.svc
    ensures var sl := TriedSlot(c, s.svc[id]);
      sl in s.bk.vvTried && s.bk.vvTried[sl] in s.bk.tried && s.bk.vvTried[sl] in s.stats
  {}

  /** `Clear` forgets everything except the pending collisions. */
  function Clear(s: State): State { Empty().(collisions := s.collisions) }

  /** After `Clear` the pending list is right exactly when it was empty, and a stale id 0 makes
      `SelectTriedCollision_` read an empty slot as soon as one address is added. */
  lemma ClearLeavesStale(c: Config, s: State, a: Address, source: NetAddr, penalty: int, now: int, lucky: bool)
    requires CollisionsOk(c, s) && c.newBuckets > 0 && c.routable(a.service.ip)
    ensures Consistent(c, Clear(s))
    ensures CollisionsOk(c, Clear(s)) <==> s.collisions == {}
    ensures 0 in s.collisions ==>
      var t := Add(c, Clear(s), a, source, penalty, now, lucky).0;
      0 in t.collisions && 0 in t.svc && TriedSlot(c, t.svc[0]) !in t.bk.vvTried
  {
    EmptyConsistent(c, s);
    if CollisionsOk(c, Clear(s)) {
      forall id ensures id !in s.collisions { assert id in Clear(s).collisions ==> 0 <= id < 0; }
    }
    assert Find(Clear(s), a.service.ip) == None;
  }

  lemma EmptyConsistent(c: Config, s: State)
    requires c.newBuckets > 0
    ensures Consistent(c, Clear(s)) && Consistent(c, Empty())
  {}

  // ------------------------------------------------------------- whole runs

  datatype Op =
    | OpAdd(a: Address, source: NetAddr, penalty: int, now: int, lucky: bool)
    | OpGood(svc: Service, testBeforeEvict: bool, time: int)
    | OpAttempt(svc: Service, countFailure: bool, time: int)
    | OpConnected(svc: Service, time: int)
    | OpSetServices(svc: Service, services: Flags)
    | OpShuffle(i: nat, j: nat)
    | OpResolve(ids: seq<int>, now: int)
    | OpForget(id: int)   // `SelectTriedCollision_` dropping an id that no longer exists

  predicate OpOk(s: State, op: Op) {
    match op
    case OpGood(_, _, time) => time > 0
    case OpAttempt(_, _, time) => time >= 0
    case OpConnected(_, time) => time >= 0
    case OpShuffle(i, j) => i < |s.ix.vRandom| && j < |s.ix.vRandom|
    case OpResolve(_, now) => now > 0
    case OpForget(id) => id !in s.svc
    case _ => true
  }

  function Step(c: Config, s: State, op: Op): State
    requires Consistent(c, s) && OpOk(s, op)
  {
    match op
    case OpAdd(a, source, penalty, now, lucky) => Add(c, s, a, source, penalty, now, lucky).0
    case OpGood(a, test, time) => Good(c, s, a, test, time)
    case OpAttempt(a, count, time) => Attempt(s, a, count, time)
    case OpConnected(a, time) => Connected(s, a, time)
    case OpSetServices(a, services) => SetServices(s, a, services)
    case OpShuffle(i, j) =>
      ShuffleKeeps(c, s, i, j);
      Shuffle(s, i, j)
    case OpResolve(ids, now) => Resolve(c, s, ids, now)
    case OpForget(id) => Unqueue(s, id)
  }

  /** What one operation may do: the manager stays consistent, no id is reused, no tried slot is
      emptied and the pending collisions stay answerable. */
  ghost predicate Follows(c: Config, s: State, t: State) { Consistent(c, t) && Grows(s, t) && CollisionsOk(c, t) }

  lemma AddStep(c: Config, s: State, a: Address, source: NetAddr, penalty: int, now: int, lucky: bool, t: State)
    requires Consistent(c, s) && CollisionsOk(c, s) && t == Add(c, s, a, source, penalty, now, lucky).0
    ensures Follows(c, s, t)
  {
    AddKeeps(c, s, a, source, penalty, now, lucky, t);
    CollisionsKeep(c, s, t);
  }

  lemma GoodStep(c: Config, s: State, a: Service, test: bool, time: int, t: State)
    requires Consistent(c, s) && CollisionsOk(c, s) && time > 0 && t == Good(c, s, a, test, time)
    ensures Follows(c, s, t)
  {
    GoodKeeps(c, s, a, test, time);
    if t.collisions == s.collisions { CollisionsKeep(c, s, t); }
    else { CollisionsQueue(c, s, t, Find(s, a.ip).value, test); }
  }

  lemma SmallStep(c: Config, s: State, t: State)
    requires Consistent(c, s) && CollisionsOk(c, s) && Consistent(c, t) && t == s.(stats := t.stats)
    ensures Follows(c, s, t)
  {
    CollisionsKeep(c, s, t);
  }

  lemma ShuffleStep(c: Config, s: State, i: nat, j: nat)
    requires Consistent(c, s) && CollisionsOk(c, s) && i < |s.ix.vRandom| && j < |s.ix.vRandom|
    ensures CanSwap(s.ix, i, j) && Follows(c, s, Shuffle(s, i, j))
  {
    ShuffleKeeps(c, s, i, j);
    CollisionsKeep(c, s, Shuffle(s, i, j));
  }

  lemma ResolveStep(c: Config, s: State, ids: seq<int>, now: int, t: State)
    requires Consistent(c, s) && CollisionsOk(c, s) && now > 0 && t == Resolve(c, s, ids, now)
    ensures Follows(c, s, t)
  {
    ResolveKeeps(c, s, ids, now);
    CollisionsKeep(c, s, t);
  }

  lemma ForgetStep(c: Config, s: State, id: int)
    requires Consistent(c, s) && CollisionsOk(c, s)
    ensures Follows(c, s, Unqueue(s, id))
  {
    CollisionsKeep(c, s, Unqueue(s, id));
  }

  /** Every operation does no more than that. */
  lemma StepKeeps(c: Config, s: State, op: Op, t: State)
    requires Consistent(c, s) && CollisionsOk(c, s) && OpOk(s, op) && t == Step(c, s, op)
    ensures Follows(c, s, t)
  {
    match op
    case OpAdd(a, source, penalty, now, lucky) => AddStep(c, s, a, source, penalty, now, lucky, t);
    case OpGood(a, test, time) => GoodStep(c, s, a, test, time, t);
    case OpAttempt(a, count, time) =>
      AttemptKeeps(c, s, a, count, time, t);
      SmallStep(c, s, t);
    case OpConnected(a, time) =>
      ConnectedKeeps(c, s, a, time, t);
      SmallStep(c, s, t);
    case OpSetServices(a, services) =>
      SetServicesKeeps(c, s, a, services, t);
      SmallStep(c, s, t);
    case OpShuffle(i, j) => ShuffleStep(c, s, i, j);
    case OpResolve(ids, now) => ResolveStep(c, s, ids, now, t);
    case OpForget(id) => ForgetStep(c, s, id);
  }

  ghost predicate IsRun(c: Config, s: State, ops: seq<Op>, t: State)
    decreases |ops|
  {
    if ops == [] then s == t
    else Consistent(c, s) && OpOk(s, ops[0]) && IsRun(c, Step(c, s, ops[0]), ops[1..], t)
  }

  lemma {:induction false} RunKeeps(c: Config, s: State, ops: seq<Op>, t: State)
    requires Consistent(c, s) && CollisionsOk(c, s) && IsRun(c, s, ops, t)
    ensures Consistent(c, t) && CollisionsOk(c, t) && Grows(s, t)
    decreases |ops|
  {
    if ops != [] {
      var u := Step(c, s, ops[0]);
      StepKeeps(c, s, ops[0], u);
      RunKeeps(c, u, ops[1..], t);
      GrowsTransitive(s, u, t);
    }
  }

  /** Every run from the empty manager is consistent throughout, holds at most ten pending
      collisions, and `SelectTriedCollision_` always finds a tried entry for a live one. */
  lemma EveryRun(c: Config, ops: seq<Op>, t: State, id: int)
    requires c.newBuckets > 0 && IsRun(c, Empty(), ops, t)
    ensures Consistent(c, t) && CollisionsOk(c, t)
    ensures |t.ix.vRandom| == t.bk.nNew + t.bk.nTried
    ensures id in t.collisions && id in t.svc ==>
              TriedSlot(c, t.svc[id]) in t.bk.vvTried && t.bk.vvTried[TriedSlot(c, t.svc[id])] in t.bk.tried
  {
    EmptyConsistent(c, Empty());
    RunKeeps(c, Empty(), ops, t);
    if id in t.collisions && id in t.svc { SelectReadsTried(c, t, id); }
  }

  /** An operation where it applies; where it does not, nothing. */
  ghost function Perform(c: Config, s: State, op: Op): State {
    if Consistent(c, s) && OpOk(s, op) then Step(c, s, op) else s
  }

  ghost function PerformAll(c: Config, s: State, ops: seq<Op>): State
    decreases |ops|
  {
    if ops == [] then s else PerformAll(c, Perform(c, s, ops[0]), ops[1..])
  }

  /** Every operation is acceptable when its turn comes; nothing is said about consistency. */
  ghost predicate InTurn(c: Config, s: State, ops: seq<Op>)
    decreases |ops|
  {
    ops == [] || (OpOk(s, ops[0]) && InTurn(c, Perform(c, s, ops[0]), ops[1..]))
  }

  lemma {:induction false} InTurnRuns(c: Config, s: State, ops: seq<Op>)
    requires Consistent(c, s) && CollisionsOk(c, s) && InTurn(c, s, ops)
    ensures IsRun(c, s, ops, PerformAll(c, s, ops))
    decreases |ops|
  {
    if ops != [] {
      var u := Perform(c, s, ops[0]);
      StepKeeps(c, s, ops[0], u);
      InTurnRuns(c, u, ops[1..]);
    }
  }

  /** So every list of acceptable operations is a run of the empty manager: none is ever stuck. */
  lemma EveryListRuns(c: Config, ops: seq<Op>)
    requires c.newBuckets > 0 && InTurn(c, Empty(), ops)
    ensures IsRun(c, Empty(), ops, PerformAll(c, Empty(), ops))
  {
    EmptyConsistent(c, Empty());
    InTurnRuns(c, Empty(), ops);
  }

  // ------------------------------------------------- a pending collision outlives `Clear`

  /** Two entries, the second of them tried; then the first, behind the same tried slot. */
  function CollidingOps(a: Address, b: Address): seq<Op> {
    [OpAdd(a, 0, 0, 1, true), OpAdd(b, 0, 0, 1, true), OpGood(b.service, false, 1), OpGood(a.service, true, 1)]
  }

  function NewSlotFrom(c: Config, a: Service, source: NetAddr): Slot { NewSlot(c, NewBucket(c, a, source), a) }

  /** Two addresses that can be known together and share a tried slot. */
  ghost predicate Collide(c: Config, a: Service, b: Service) {
    && c.newBuckets > 0 && c.routable(a.ip) && c.routable(b.ip) && a.ip != b.ip
    && NewSlotFrom(c, a, 0) != NewSlotFrom(c, b, 0) && TriedSlot(c, a) == TriedSlot(c, b)
  }

  /** A new address whose slot is free gets the next id and that slot. */
  lemma AddFresh(c: Config, s: State, a: Address, source: NetAddr, penalty: int, now: int, lucky: bool, t: State)
    requires Consistent(c, s) && c.routable(a.service.ip) && Find(s, a.service.ip).None?
    requires NewSlotFrom(c, a.service, source) !in s.bk.vvNew && t == Add(c, s, a, source, penalty, now, lucky).0
    ensures var id := s.ix.nIdCount;
      && Consistent(c, t) && t.ix.nIdCount == id + 1 && t.bk.tried == s.bk.tried && t.bk.vvTried == s.bk.vvTried
      && t.svc == s.svc[id := a.service] && t.collisions == s.collisions
      && t.bk.vvNew == s.bk.vvNew[NewSlotFrom(c, a.service, source) := id]
  {
    AddKeeps(c, s, a, source, penalty, now, lucky, t);
    CreateInv(c, s, a, source, if a.service.ip == source then 0 else penalty);
  }

  /** Moving an entry to a free tried slot disturbs no other entry. */
  lemma FirstTried(c: Config, s: State, id: int)
    requires Consistent(c, s) && id in s.svc && id !in s.bk.tried && s.stats[id].nLastSuccess != 0
    requires TriedSlot(c, s.svc[id]) !in s.bk.vvTried
    ensures CanMakeTried(c, s, id) && MakeTried(c, s, id).svc == s.svc
    ensures MakeTried(c, s, id).bk.tried == s.bk.tried + {id}
  {
    MakeTriedKeeps(c, s, id);
  }

  lemma GoodFirst(c: Config, s: State, id: int, time: int, t: State)
    requires Consistent(c, s) && id in s.svc && id !in s.bk.tried && time > 0
    requires TriedSlot(c, s.svc[id]) !in s.bk.vvTried
    requires t == Good(c, s, s.svc[id], false, time)
    ensures Consistent(c, t) && t.svc == s.svc && t.bk.tried == s.bk.tried + {id} && t.collisions == s.collisions
    ensures TriedSlot(c, s.svc[id]) in t.bk.vvTried
  {
    var m := Marked(s, id, time);
    GoodKeeps(c, s, s.svc[id], false, time);
    GoodMeans(c, s, id, false, time);
    AlwaysFound(c, m, id);
    FirstTried(c, m, id);
    assert Find(s, s.svc[id].ip) == Some(id);
    assert t == MakeTried(c, m, id);
  }

  lemma GoodCollides(c: Config, s: State, id: int, time: int, t: State)
    requires Consistent(c, s) && id in s.svc && id !in s.bk.tried && time > 0 && TriedSlot(c, s.svc[id]) in s.bk.vvTried
    requires s.collisions == {} && t == Good(c, s, s.svc[id], true, time)
    ensures t.collisions == {id}
  {
    GoodMeans(c, s, id, true, time);
  }

  lemma TwoAdded(c: Config, a: Address, b: Address, s: State, t: State)
    requires Collide(c, a.service, b.service) && Consistent(c, Empty()) && s == Add(c, Empty(), a, 0, 0, 1, true).0
    requires Consistent(c, s) && t == Add(c, s, b, 0, 0, 1, true).0
    ensures Consistent(c, t) && t.bk.tried == {} && t.bk.vvTried == map[] && t.collisions == {}
    ensures t.svc == map[0 := a.service, 1 := b.service]
  {
    AddFresh(c, Empty(), a, 0, 0, 1, true, s);
    assert Find(s, b.service.ip).None?;
    AddFresh(c, s, b, 0, 0, 1, true, t);
  }

  lemma TwoMarked(c: Config, a: Service, b: Service, s: State, t: State, u: State)
    requires Collide(c, a, b) && Consistent(c, s) && s.bk.tried == {} && s.bk.vvTried == map[] && s.collisions == {}
    requires s.svc == map[0 := a, 1 := b] && t == Good(c, s, b, false, 1) && Consistent(c, t)
    requires u == Good(c, t, a, true, 1)
    ensures u.collisions == {0}
  {
    GoodFirst(c, s, 1, 1, t);
    GoodCollides(c, t, 0, 1, u);
  }

  lemma IsCollidingRun(c: Config, a: Address, b: Address, s: State, s1: State, s2: State, s3: State, t: State)
    requires Consistent(c, s) && s1 == Add(c, s, a, 0, 0, 1, true).0 && Consistent(c, s1)
    requires s2 == Add(c, s1, b, 0, 0, 1, true).0
    requires Consistent(c, s2) && s3 == Good(c, s2, b.service, false, 1) && Consistent(c, s3)
    requires t == Good(c, s3, a.service, true, 1)
    ensures IsRun(c, s, CollidingOps(a, b), t)
  {
    IsRunOfFour(c, s, CollidingOps(a, b), s1, s2, s3, t);
  }

  /** From the empty manager, any two such addresses lead to a pending collision. */
  lemma CollisionRun(c: Config, a: Address, b: Address) returns (t: State)
    requires Collide(c, a.service, b.service)
    ensures IsRun(c, Empty(), CollidingOps(a, b), t) && t.collisions == {0}
  {
    EmptyConsistent(c, Empty());
    t := CollisionFrom(c, a, b, Empty());
  }

  lemma CollisionFrom(c: Config, a: Address, b: Address, s: State) returns (t: State)
    requires Collide(c, a.service, b.service) && Consistent(c, s) && s == Empty()
    ensures IsRun(c, s, CollidingOps(a, b), t) && t.collisions == {0}
  {
    var s1 := Add(c, s, a, 0, 0, 1, true).0;
    AddKeeps(c, s, a, 0, 0, 1, true, s1);
    var s2 := Add(c, s1, b, 0, 0, 1, true).0;
    TwoAdded(c, a, b, s1, s2);
    var s3 := Good(c, s2, b.service, false, 1);
    GoodKeeps(c, s2, b.service, false, 1);
    t := Good(c, s3, a.service, true, 1);
    TwoMarked(c, a.service, b.service, s2, s3, t);
    IsCollidingRun(c, a, b, s, s1, s2, s3, t);
  }

  /** Two new buckets and one tried bucket, of one slot each. */
  function TwoBuckets(): Config {
    Config(2, 1, 1, _ => 0, (a: Service, _) => a.ip, (_, _, _) => 0, _ => true, _ => true)
  }

  function Peer(ip: NetAddr): Address { Address(Service(ip, 0), 1, {}) }

  lemma PeersCollide()
    ensures Collide(TwoBuckets(), Peer(0).service, Peer(1).service)
  {
    var c := TwoBuckets();
    assert NewBucket(c, Peer(0).service, 0) == 0 && NewBucket(c, Peer(1).service, 0) == 1;
  }

  lemma StaleAfterRun(c: Config, ops: seq<Op>, t: State, a: Address)
    requires c.newBuckets > 0 && IsRun(c, Empty(), ops, t) && 0 in t.collisions && c.routable(a.service.ip)
    ensures Consistent(c, Clear(t)) && !CollisionsOk(c, Clear(t))
  {
    EmptyConsistent(c, Empty());
    RunKeeps(c, Empty(), ops, t);
    ClearLeavesStale(c, t, a, 0, 0, 1, true);
  }

  /** So a run of four calls followed by `Clear` leaves a stale id behind. */
  lemma StaleIsReachable() returns (t: State)
    ensures IsRun(TwoBuckets(), Empty(), CollidingOps(Peer(0), Peer(1)), t) && t.collisions == {0}
    ensures Consistent(TwoBuckets(), Clear(t)) && !CollisionsOk(TwoBuckets(), Clear(t))
  {
    PeersCollide();
    t := CollisionRun(TwoBuckets(), Peer(0), Peer(1));
    StaleAfterRun(TwoBuckets(), CollidingOps(Peer(0), Peer(1)), t, Peer(0));
  }

  lemma IsRunOfFour(c: Config, s: State, ops: seq<Op>, s1: State, s2: State, s3: State, t: State)
    requires |ops| == 4 && Consistent(c, s) && OpOk(s, ops[0]) && s1 == Step(c, s, ops[0])
    requires Consistent(c, s1) && OpOk(s1, ops[1]) && s2 == Step(c, s1, ops[1])
    requires Consistent(c, s2) && OpOk(s2, ops[2]) && s3 == Step(c, s2, ops[2])
    requires Consistent(c, s3) && OpOk(s3, ops[3]) && t == Step(c, s3, ops[3])
    ensures IsRun(c, s, ops, t)
  {
    assert IsRun(c, t, ops[4..], t);
    assert ops[3..][1..] == ops[4..] && IsRun(c, s3, ops[3..], t);
    assert ops[2..][1..] == ops[3..] && IsRun(c, s2, ops[2..], t);
    assert ops[1..][1..] == ops[2..] && IsRun(c, s1, ops[1..], t);
  }

  // ------------------------------------------------------------ the manager

  /** The mutable manager.  `refs`, `svc` and the other columns are the fields of the entries. */
  class Manager {
    const c: Config
    var svc: Services
    var ix: Index
    var bk: Books
    var stats: map<int, Stat>
    var nLastGood: int
    var collisions: set<int>

    ghost function S(): State reads this { State(svc, ix, bk, stats, nLastGood, collisions) }

    constructor (c: Config)
      requires c.newBuckets > 0
      ensures Consistent(this.c, S()) && CollisionsOk(this.c, S()) && S() == Empty() && this.c == c
    {
      this.c := c;
      svc, ix, bk := map[], Index(0, map[], map[], []), Books(map[], {}, map[], map[], 0, 0);
      stats, nLastGood, collisions := map[], 1, {};
      new;
      EmptyConsistent(c, Empty());
    }

    /** The search in `Good_`: from a random bucket on, wrapping around. */
    method FindNewBucket(id: int, start: nat) returns (found: bool)
      requires id in svc && start < c.newBuckets
      ensures found <==> FoundInNew(c, S(), id)
    {
      var n := 0;
      while n < c.newBuckets
        invariant 0 <= n <= c.newBuckets
        invariant forall b: nat :: b < c.newBuckets && (start <= b < start + n || b + c.newBuckets < start + n) ==>
                    !(NewSlot(c, b, svc[id]) in bk.vvNew && bk.vvNew[NewSlot(c, b, svc[id])] == id)
      {
        var b := if n + start < c.newBuckets then n + start else n + start - c.newBuckets;
        var sl := NewSlot(c, b, svc[id]);
        if sl in bk.vvNew && bk.vvNew[sl] == id { return true; }
        n := n + 1;
      }
      found := false;
    }

    /** The first loop of `MakeTried`: visit the entry's position in every new bucket. */
    method LeaveNew(id: int)
      requires id in svc && id in bk.refs
      modifies this`bk
      ensures bk == RemoveFromNew(c, old(bk), id, svc[id])
    {
      RemoveNone(c, bk, id, svc[id]);
      for b := 0 to c.newBuckets
        invariant bk == RemoveBelow(c, old(bk), id, svc[id], b)
      {
        var sl := NewSlot(c, b, svc[id]);
        RemoveOneMore(c, old(bk), id, svc[id], b);
        if sl in bk.vvNew && bk.vvNew[sl] == id {
          bk := bk.(vvNew := bk.vvNew - {sl}, refs := bk.refs[id := bk.refs[id] - 1]);
        }
      }
    }

    /** One draw of `GetAddr_`. */
    method Draw(n: nat, acc: seq<int>, now: int) returns (ids: seq<int>)
      requires Gathering(svc, ix, stats, n, acc, now) && n < |ix.vRandom|
      modifies this`ix
      ensures Gathering(svc, ix, stats, n + 1, ids, now) && SameShape(ix, old(ix)) && |ids| <= |acc| + 1
    {
      var r: int := *;
      if !(n <= r < |ix.vRandom|) { r := n; }
      CollectStep(svc, ix, stats, n, r, acc, now);
      ix := IxSwap(ix, n, r);
      ids := Collect(ix, stats, n, acc, now);
    }

    /** `GetAddr_` with arbitrary draws. */
    method GetAddr(now: int) returns (ids: seq<int>, ghost drawn: nat)
      requires Consistent(c, S())
      modifies this`ix
      ensures Consistent(c, S()) && Grows(old(S()), S())
      ensures Distinct(ids) && NoneTerrible(stats, ids, now)
      ensures |ids| <= GETADDR_MAX && 100 * |ids| <= GETADDR_MAX_PCT * |ix.vRandom|
      ensures drawn <= |ix.vRandom| && ids == Worthy(stats, ix.vRandom[..drawn], now)
      ensures drawn == |ix.vRandom| || |ids| == GetAddrCap(|ix.vRandom|)
    {
      ghost var s := S();
      var nNodes := GetAddrCap(|ix.vRandom|);
      ids := [];
      var n := 0;
      while n < |ix.vRandom| && |ids| < nNodes
        invariant Gathering(svc, ix, stats, n, ids, now) && SameShape(ix, s.ix) && |ids| <= nNodes
        decreases |ix.vRandom| - n
      {
        ids := Draw(n, ids, now);
        n := n + 1;
      }
      drawn := n;
      assert S() == s.(ix := ix);
      ReindexKeeps(c, s, ix);
      CapMeans(|ix.vRandom|);
    }

    method ResolveOnePending(id: int, now: int)
      requires Consistent(c, S()) && now > 0
      modifies this
      ensures S() == ResolveOne(c, old(S()), id, now) && Consistent(c, S())
    {
      ResolveOneKeeps(c, S(), id, now);
      var t := ResolveOne(c, State(svc, ix, bk, stats, nLastGood, collisions), id, now);
      svc, ix, bk, stats, nLastGood, collisions := t.svc, t.ix, t.bk, t.stats, t.nLastGood, t.collisions;
    }

    /** `ResolveCollisions_`: visit the pending ids in increasing order. */
    method ResolveCollisions(now: int) returns (ghost done: seq<int>)
      requires Consistent(c, S()) && CollisionsOk(c, S()) && now > 0
      modifies this
      ensures S() == Resolve(c, old(S()), done, now)
      ensures Ascending(done) && forall id :: id in done <==> id in old(collisions)
    {
      ghost var s := S();
      var pending := collisions;
      var ids := ix.nIdCount;
      done := [];
      for id := 0 to ids
        invariant Consistent(c, S()) && S() == Resolve(c, s, done, now) && Visited(done, pending, id)
      {
        AppendAscending(done, pending, id);
        if id in pending {
          ResolveAppend(c, s, done, id, now);
          ResolveOnePending(id, now);
          done := done + [id];
        }
      }
    }
  }

  predicate Ascending(ids: seq<int>) { forall j, k :: 0 <= j < k < |ids| ==> ids[j] < ids[k] }

  /** The pending ids below `id`, in order. */
  ghost predicate Visited(done: seq<int>, pending: set<int>, id: int) {
    Ascending(done) && forall x :: x in done <==> x in pending && x < id
  }

  lemma AppendAscending(done: seq<int>, pending: set<int>, id: int)
    requires Visited(done, pending, id)
    ensures Visited(if id in pending then done + [id] else done, pending, id + 1)
  {
    forall j | 0 <= j < |done| ensures done[j] < id { assert done[j] in done; }
  }

  lemma RemoveNone(c: Config, bk: Books, id: int, a: Service)
    requires id in bk.refs
    ensures RemoveBelow(c, bk, id, a, 0) == bk
  {
    var gone := GoneBelow(c, bk.vvNew, id, a, 0);
    assert gone == {};
    assert bk.vvNew - gone == bk.vvNew;
    assert bk.refs[id := bk.refs[id] - |gone|] == bk.refs;
  }

  /** One more bucket: at most one slot of the entry goes. */
  lemma RemoveOneMore(c: Config, bk: Books, id: int, a: Service, b: nat)
    requires id in bk.refs
    ensures var sl := NewSlot(c, b, a);
      var r := RemoveBelow(c, bk, id, a, b);
      RemoveBelow(c, bk, id, a, b + 1) ==
        if sl in r.vvNew && r.vvNew[sl] == id
        then r.(vvNew := r.vvNew - {sl}, refs := r.refs[id := r.refs[id] - 1])
        else r
  {
    GoneMore(c, bk.vvNew, id, a, b);
    RemoveStep(bk, id, NewSlot(c, b, a), GoneBelow(c, bk.vvNew, id, a, b), GoneBelow(c, bk.vvNew, id, a, b + 1));
  }

  function Without(bk: Books, id: int, gone: set<Slot>): Books
    requires id in bk.refs
  {
    bk.(vvNew := bk.vvNew - gone, refs := bk.refs[id := bk.refs[id] - |gone|])
  }

  lemma RemoveStep(bk: Books, id: int, sl: Slot, gone: set<Slot>, more: set<Slot>)
    requires id in bk.refs && sl !in gone && more == if sl in bk.vvNew && bk.vvNew[sl] == id then gone + {sl} else gone
    ensures var r := Without(bk, id, gone);
      Without(bk, id, more) ==
        if sl in r.vvNew && r.vvNew[sl] == id
        then r.(vvNew := r.vvNew - {sl}, refs := r.refs[id := r.refs[id] - 1])
        else r
  {
    if sl in bk.vvNew && bk.vvNew[sl] == id { LeaveOne(bk, gone, sl, id); }
  }

  lemma GoneMore(c: Config, vvNew: Table, id: int, a: Service, b: nat)
    ensures var sl := NewSlot(c, b, a);
      && sl !in GoneBelow(c, vvNew, id, a, b)
      && GoneBelow(c, vvNew, id, a, b + 1) ==
           if sl in vvNew && vvNew[sl] == id
           then GoneBelow(c, vvNew, id, a, b) + {sl}
           else GoneBelow(c, vvNew, id, a, b)
  {}

  lemma LeaveOne(bk: Books, gone: set<Slot>, sl: Slot, id: int)
    requires id in bk.refs && sl !in gone
    ensures bk.vvNew - gone - {sl} == bk.vvNew - (gone + {sl})
    ensures bk.refs[id := bk.refs[id] - |gone|][id := bk.refs[id] - |gone| - 1] ==
      bk.refs[id := bk.refs[id] - |gone + {sl}|]
  {}

  lemma {:induction false} ResolveAppend(c: Config, s: State, ids: seq<int>, id: int, now: int)
    requires Consistent(c, s) && now > 0
    ensures Consistent(c, Resolve(c, s, ids, now))
    ensures Resolve(c, s, ids + [id], now) == ResolveOne(c, Resolve(c, s, ids, now), id, now)
    decreases |ids|
  {
    ResolveKeeps(c, s, ids, now);
    if ids == [] {
      assert ([] + [id])[1..] == [];
    } else {
      ResolveOneKeeps(c, s, ids[0], now);
      assert (ids + [id])[1..] == ids[1..] + [id];
      ResolveAppend(c, ResolveOne(c, s, ids[0], now), ids[1..], id, now);
    }
  }
}
