/** Loading any address file, whatever it holds and whichever of its entries are lost: when exactly the
    tables that come out agree with each other. */
module AddrManLoss {
  import opened AddrMan
  import opened AddrManFile
  import opened Common

  // ---------------------------------------------- what holds for every file

  /** The index, but for the addresses. */
  ghost predicate Ordered(svc: Services, ix: Index) {
    && ix.pos.Keys == svc.Keys && |ix.vRandom| == |svc.Keys|
    && (forall id :: id in svc ==> 0 <= id < ix.nIdCount) && RandomOk(ix.pos, ix.vRandom)
  }

  /** Consistency, but for the addresses and the statistics. */
  ghost predicate Loose(c: Config, s: State, limbo: set<int>, off: int) {
    Ordered(s.svc, s.ix) && BooksOk(c, s.svc, s.bk, limbo, off) && s.stats.Keys == s.svc.Keys
  }

  lemma MoreLoose(c: Config, s: State, limbo: set<int>, more: set<int>, off: int)
    requires Loose(c, s, limbo, off) && limbo <= more
    ensures Loose(c, s, more, off)
  {}

  lemma EnterOrdered(svc: Services, ix: Index, a: Service)
    requires Ordered(svc, ix)
    ensures ix.nIdCount !in svc && Ordered(svc[ix.nIdCount := a], IxCreate(ix, a.ip))
  {
    assert svc[ix.nIdCount := a].Keys == svc.Keys + {ix.nIdCount};
    PushRandom(ix.pos, ix.vRandom, ix.nIdCount);
  }

  lemma EnterLoose(c: Config, s: State, r: Record, limbo: set<int>, off: int, t: State)
    requires Loose(c, s, limbo, off) && t == Enter(s, r)
    ensures s.ix.nIdCount !in s.svc && Loose(c, t, limbo + {s.ix.nIdCount}, off + 1)
  {
    EnterOrdered(s.svc, s.ix, r.svc);
    CreateBooks(c, s.svc, s.bk, limbo, off, s.ix.nIdCount, r.svc);
  }

  lemma HomeLoose(c: Config, s: State, sl: Slot, id: int, limbo: set<int>, off: int, t: State)
    requires Loose(c, s, limbo, off) && sl !in s.bk.vvNew && id in s.svc && id !in s.bk.tried
    requires s.bk.refs[id] < NEW_BUCKETS_PER_ADDRESS
    requires sl.bucket < c.newBuckets && sl == NewSlot(c, sl.bucket, s.svc[id]) && t == s.(bk := BkRef(s.bk, sl, id))
    ensures Loose(c, t, limbo, off)
  {
    RefBooks(c, s.svc, s.bk, limbo, off, sl, id);
    MoreLoose(c, t, limbo - {id}, limbo, off);
  }

  lemma EnterNewLoose(c: Config, s: State, r: Record, usable: bool, limbo: set<int>, off: int, t: State)
    requires Loose(c, s, limbo, off) && t == EnterNew(c, s, r, usable)
    ensures Loose(c, t, limbo + {s.ix.nIdCount}, off + 1)
  {
    var id, u := s.ix.nIdCount, Enter(s, r);
    EnterLoose(c, s, r, limbo, off, u);
    var sl := NewSlotFrom(c, r.svc, r.source);
    if !usable && sl !in u.bk.vvNew { HomeLoose(c, u, sl, id, limbo + {id}, off + 1, t); }
  }

  /** After `k` of the `n` new entries. */
  ghost predicate NewLoose(c: Config, s: State, n: nat, k: nat) {
    Loose(c, s, s.svc.Keys, k - n) && s.ix.nIdCount == k && s.bk.tried == {}
  }

  lemma NewLooseStep(c: Config, s: State, r: Record, usable: bool, n: nat, k: nat, t: State, j: nat)
    requires NewLoose(c, s, n, k) && t == EnterNew(c, s, r, usable) && j == k + 1
    ensures NewLoose(c, t, n, j)
  {
    assert t.svc.Keys == s.svc.Keys + {k};
    EnterNewLoose(c, s, r, usable, s.svc.Keys, k - n, t);
  }

  lemma {:induction false} NewsLoose(c: Config, s: State, recs: seq<Record>, usable: bool, k: nat, t: State)
    requires NewLoose(c, s, |recs|, k) && k <= |recs| && t == LoadNew(c, s, recs, usable, k)
    ensures NewLoose(c, t, |recs|, |recs|)
    decreases |recs| - k
  {
    if k < |recs| {
      var u := EnterNew(c, s, recs[k], usable);
      NewLooseStep(c, s, recs[k], usable, |recs|, k, u, k + 1);
      NewsLoose(c, u, recs, usable, k + 1, t);
    }
  }

  /** While tried entries are entered: only the `n` new ones may lack a reference. */
  ghost predicate TriedLoose(c: Config, s: State, n: nat, loose: set<int>) {
    && Loose(c, s, loose, 0) && s.ix.nIdCount >= n
    && (forall id :: id in loose ==> 0 <= id < n) && (forall id :: id in s.bk.tried ==> id >= n)
  }

  lemma OneTriedLoose(c: Config, s: State, r: Record, n: nat, loose: set<int>, t: State)
    requires TriedLoose(c, s, n, loose) && t == LoadOneTried(c, s, r)
    ensures TriedLoose(c, t, n, loose)
  {
    if TriedSlot(c, r.svc) !in s.bk.vvTried {
      var id, e := s.ix.nIdCount, Enter(s, r);
      EnterLoose(c, s, r, loose, 0, e);
      ToTriedBooks(c, e.svc, e.bk, loose + {id}, 1, id);
      AddRemove(loose, id);
    }
  }

  lemma {:induction false} TriedsLoose(
      c: Config, s: State, n: nat, loose: set<int>, recs: seq<Record>, k: nat, t: State)
    requires TriedLoose(c, s, n, loose) && k <= |recs| && t == LoadTried(c, s, recs, k)
    ensures TriedLoose(c, t, n, loose)
    decreases |recs| - k
  {
    if k < |recs| {
      var u := LoadOneTried(c, s, recs[k]);
      OneTriedLoose(c, s, recs[k], n, loose, u);
      TriedsLoose(c, u, n, loose, recs, k + 1, t);
    }
  }

  lemma StartLoose(c: Config, s: State, n: nat)
    requires c.newBuckets > 0
    ensures NewLoose(c, Start(s, n), n, 0)
  {}

  lemma EntriesLoose(c: Config, s: State, image: Image, e: State) returns (loose: set<int>)
    requires c.newBuckets > 0 && e == LoadEntries(c, s, image)
    ensures TriedLoose(c, e, |image.news|, loose)
  {
    var n := |image.news|;
    var u := LoadNew(c, Start(s, n), image.news, image.usable, 0);
    StartLoose(c, s, n);
    NewsLoose(c, Start(s, n), image.news, image.usable, 0, u);
    loose := u.svc.Keys;
    TriedsLoose(c, u, n, loose, image.tried, 0, e);
  }

  lemma OneRefLoose(c: Config, s: State, n: nat, r: Reference, loose: set<int>, t: State)
    requires TriedLoose(c, s, n, loose) && t == LoadOneRef(c, s, n, r)
    ensures TriedLoose(c, t, n, loose)
    ensures t.svc == s.svc && t.ix == s.ix && t.stats == s.stats && t.bk.tried == s.bk.tried
  {
    if Usable(c, s, n, r) { HomeLoose(c, s, NewSlot(c, r.bucket, s.svc[r.index]), r.index, loose, 0, t); }
  }

  lemma {:induction false} RefsLoose(
      c: Config, s: State, n: nat, refs: seq<Reference>, k: nat, loose: set<int>, t: State)
    requires TriedLoose(c, s, n, loose) && k <= |refs| && t == LoadRefs(c, s, n, refs, k)
    ensures TriedLoose(c, t, n, loose)
    ensures t.svc == s.svc && t.ix == s.ix && t.stats == s.stats && t.bk.tried == s.bk.tried
    decreases |refs| - k
  {
    if k < |refs| {
      var u := LoadOneRef(c, s, n, refs[k]);
      OneRefLoose(c, s, n, refs[k], loose, u);
      RefsLoose(c, u, n, refs, k + 1, loose, t);
    }
  }

  // ------------------------------------------------------------------ pruning

  lemma SwapOrdered(svc: Services, ix: Index, id: int, t: Index)
    requires Ordered(svc, ix) && id in svc
    ensures CanDrop(ix, id)
    ensures t == IxSwap(ix, ix.pos[id], |ix.vRandom| - 1) ==> Ordered(svc, t) && t.vRandom[|t.vRandom| - 1] == id
  {
    var last := |ix.vRandom| - 1;
    assert HasPlace(ix.pos, ix.vRandom, id);
    assert HasId(ix.pos, ix.vRandom, last);
    if ix.pos[id] != last { SwapRandom(ix.pos, ix.vRandom, ix.pos[id], last); }
  }

  lemma DeleteOrdered(svc: Services, ix: Index, id: int)
    requires Ordered(svc, ix) && id in svc
    ensures CanDrop(ix, id) && Ordered(svc - {id}, IxDelete(ix, id, svc[id].ip))
    ensures IxDelete(ix, id, svc[id].ip).mapAddr == ix.mapAddr - {svc[id].ip}
  {
    SwapOrdered(svc, ix, id, ix);
    var t := IxSwap(ix, ix.pos[id], |ix.vRandom| - 1);
    SwapOrdered(svc, ix, id, t);
    PopRandom(t.pos, t.vRandom);
    assert (svc - {id}).Keys == svc.Keys - {id};
  }

  /** What pruning has left of `e`: the addresses of what is gone are gone as well. */
  ghost predicate PrunedTo(e: State, s: State) {
    && (forall id :: id in s.svc ==> id in e.svc && s.svc[id] == e.svc[id])
    && (forall id :: id in s.stats ==> id in e.stats && s.stats[id] == e.stats[id])
    && s.bk.tried == e.bk.tried
    && (forall a :: a in s.ix.mapAddr ==> a in e.ix.mapAddr && s.ix.mapAddr[a] == e.ix.mapAddr[a])
    && (forall a :: a in e.ix.mapAddr ==>
          (a !in s.ix.mapAddr <==> exists id :: id in e.svc && id !in s.svc && e.svc[id].ip == a))
  }

  lemma DeletePruned(e: State, s: State, id: int, t: State)
    requires PrunedTo(e, s) && id in s.svc && CanDelete(s, id) && t == Delete(s, id)
    requires t.ix.mapAddr == s.ix.mapAddr - {s.svc[id].ip}
    ensures PrunedTo(e, t)
  {
    forall a | a in e.ix.mapAddr
      ensures a !in t.ix.mapAddr <==> exists x :: x in e.svc && x !in t.svc && e.svc[x].ip == a
    {
      if a == s.svc[id].ip {
        assert id in e.svc && id !in t.svc && e.svc[id].ip == a;
      } else if x :| x in e.svc && x !in t.svc && e.svc[x].ip == a {
        assert x != id && x !in s.svc;
      }
    }
  }

  lemma PruneOneLoose(c: Config, e: State, s: State, id: int, limbo: set<int>, t: State, rest: set<int>)
    requires Loose(c, s, limbo, 0) && PrunedTo(e, s) && t == PruneOne(s, id) && rest == limbo - {id}
    ensures Loose(c, t, rest, 0) && PrunedTo(e, t)
  {
    if id in s.svc && s.bk.refs[id] == 0 && id !in s.bk.tried {
      DeleteOrdered(s.svc, s.ix, id);
      DeleteBooks(c, s.svc, s.bk, limbo, 0, id);
      DeletePruned(e, s, id, t);
    }
  }

  ghost function LooseOf(c: Config, e: State): (State, set<int>) -> bool {
    (s, limbo) => Loose(c, s, limbo, 0) && PrunedTo(e, s)
  }

  lemma LooseIs(c: Config, e: State, s: State, limbo: set<int>)
    ensures LooseOf(c, e)(s, limbo) == (Loose(c, s, limbo, 0) && PrunedTo(e, s))
  {}

  lemma PruneSteps(c: Config, e: State)
    ensures forall u, i, l :: LooseOf(c, e)(u, l) ==> LooseOf(c, e)(PruneOne(u, i), l - {i})
  {
    forall u, i, l | LooseOf(c, e)(u, l) ensures LooseOf(c, e)(PruneOne(u, i), l - {i}) {
      LooseIs(c, e, u, l);
      PruneOneLoose(c, e, u, i, l, PruneOne(u, i), l - {i});
      LooseIs(c, e, PruneOne(u, i), l - {i});
    }
  }

  lemma PruneLoose(c: Config, s: State, limbo: set<int>, t: State)
    requires Loose(c, s, limbo, 0) && t == Prune(s, 0, s.ix.nIdCount)
    requires forall x :: x in limbo ==> 0 <= x < s.ix.nIdCount
    ensures Loose(c, t, {}, 0) && PrunedTo(s, t)
  {
    LooseIs(c, s, s, limbo);
    PruneSteps(c, s);
    PruneRun(LooseOf(c, s), s, 0, s.ix.nIdCount, limbo);
    LooseIs(c, s, t, {});
  }

  // ---------------------------------------------------------------- addresses

  /** The address index of everything entered: each address with the last entry that has it. */
  ghost predicate Latest(s: State) {
    && (forall id :: id in s.svc ==>
          id < s.ix.nIdCount && s.svc[id].ip in s.ix.mapAddr && s.ix.mapAddr[s.svc[id].ip] >= id)
    && (forall a :: a in s.ix.mapAddr ==> s.ix.mapAddr[a] in s.svc && s.svc[s.ix.mapAddr[a]].ip == a)
    && (forall id :: id in s.stats ==> s.stats[id].nLastTry == 0)
  }

  lemma EnterLatest(s: State, r: Record, t: State)
    requires Latest(s) && s.ix.nIdCount !in s.svc && t.svc == Enter(s, r).svc && t.ix == Enter(s, r).ix
    requires t.stats == Enter(s, r).stats
    ensures Latest(t)
  {}

  lemma {:induction false} NewsLatest(c: Config, s: State, recs: seq<Record>, usable: bool, k: nat, t: State)
    requires Latest(s) && k <= |recs| && t == LoadNew(c, s, recs, usable, k)
    ensures Latest(t)
    decreases |recs| - k
  {
    if k < |recs| {
      var u := EnterNew(c, s, recs[k], usable);
      EnterLatest(s, recs[k], u);
      NewsLatest(c, u, recs, usable, k + 1, t);
    }
  }

  lemma {:induction false} TriedsLatest(c: Config, s: State, recs: seq<Record>, k: nat, t: State)
    requires Latest(s) && k <= |recs| && t == LoadTried(c, s, recs, k)
    ensures Latest(t)
    decreases |recs| - k
  {
    if k < |recs| {
      var u := LoadOneTried(c, s, recs[k]);
      if TriedSlot(c, recs[k].svc) !in s.bk.vvTried { EnterLatest(s, recs[k], u); }
      TriedsLatest(c, u, recs, k + 1, t);
    }
  }

  lemma EntriesLatest(c: Config, s: State, image: Image, e: State)
    requires e == LoadEntries(c, s, image)
    ensures Latest(e)
  {
    var n := |image.news|;
    var u := LoadNew(c, Start(s, n), image.news, image.usable, 0);
    NewsLatest(c, Start(s, n), image.news, image.usable, 0, u);
    TriedsLatest(c, u, image.tried, 0, e);
  }

  // ------------------------------------------------------------------ exactly

  /** No entry that is kept shares its address with another one entered, kept or not, */
  ghost predicate AddressesOk(e: State, t: State) {
    forall i, j :: i in t.svc && i in e.svc && j in e.svc && j != i ==> e.svc[j].ip != e.svc[i].ip
  }

  /** and those kept have the statistics that their tables ask for. */
  ghost predicate SuccessesOk(e: State, t: State) {
    forall i :: i in t.svc && i in e.stats ==>
      e.stats[i].nLastSuccess >= 0 && (i in e.bk.tried ==> e.stats[i].nLastSuccess != 0)
  }

  lemma AddressesNeeded(e: State, t: State)
    requires PrunedTo(e, t) && AddrOk(t.svc, t.ix.mapAddr) && Latest(e)
    ensures AddressesOk(e, t)
  {
    forall i, j | i in t.svc && i in e.svc && j in e.svc && j != i ensures e.svc[j].ip != e.svc[i].ip {
      assert t.ix.mapAddr[e.svc[i].ip] == i;
    }
  }

  lemma AddressesFollow(e: State, t: State)
    requires Latest(e) && PrunedTo(e, t) && AddressesOk(e, t)
    ensures AddrOk(t.svc, t.ix.mapAddr)
  {
    forall i | i in t.svc ensures t.svc[i].ip in t.ix.mapAddr && t.ix.mapAddr[t.svc[i].ip] == i {
      var a := e.svc[i].ip;
      assert e.ix.mapAddr[a] == i;
    }
    forall a | a in t.ix.mapAddr ensures t.ix.mapAddr[a] in t.svc && t.svc[t.ix.mapAddr[a]].ip == a {
      var i := e.ix.mapAddr[a];
      assert i in e.svc && e.svc[i].ip == a;
    }
  }

  lemma StatsExact(e: State, t: State)
    requires Latest(e) && PrunedTo(e, t) && t.stats.Keys == t.svc.Keys && t.bk.tried <= t.svc.Keys
    ensures StatsOk(t.svc, t.bk.tried, t.stats) <==> SuccessesOk(e, t)
  {
    forall i | i in t.svc ensures i in e.stats && t.stats[i] == e.stats[i] {}
  }

  lemma KeptNeeded(c: Config, e: State, t: State)
    requires Consistent(c, t) && PrunedTo(e, t) && Latest(e)
    ensures AddressesOk(e, t) && SuccessesOk(e, t)
  {
    AddressesNeeded(e, t);
    StatsExact(e, t);
  }

  lemma KeptEnough(c: Config, e: State, t: State)
    requires Loose(c, t, {}, 0) && PrunedTo(e, t) && Latest(e) && AddressesOk(e, t) && SuccessesOk(e, t)
    ensures Consistent(c, t)
  {
    AddressesFollow(e, t);
    StatsExact(e, t);
  }

  /** References change neither entries nor index. */
  lemma TablesLoose(c: Config, s: State, image: Image, e: State, u: State) returns (loose: set<int>)
    requires c.newBuckets > 0 && e == LoadEntries(c, s, image) && u == LoadTables(c, s, image)
    ensures Loose(c, u, loose, 0) && Latest(u) && (forall x :: x in loose ==> 0 <= x < u.ix.nIdCount)
    ensures u.svc == e.svc && u.stats == e.stats && u.bk.tried == e.bk.tried
  {
    loose := EntriesLoose(c, s, image, e);
    EntriesLatest(c, s, image, e);
    if image.usable { RefsLoose(c, e, |image.news|, image.refs, 0, loose, u); }
  }

  lemma KeptOfEntered(c: Config, s: State, image: Image, e: State, u: State, t: State)
    requires c.newBuckets > 0 && e == LoadEntries(c, s, image) && u == LoadTables(c, s, image)
    requires t == Prune(u, 0, u.ix.nIdCount)
    ensures Loose(c, t, {}, 0) && PrunedTo(u, t) && Latest(u)
    ensures u.svc == e.svc && u.stats == e.stats && u.bk.tried == e.bk.tried
  {
    var loose := TablesLoose(c, s, image, e, u);
    PruneLoose(c, u, loose, t);
  }

  lemma LoadNeeds(c: Config, s: State, image: Image, e: State, t: State)
    requires c.newBuckets > 0 && e == LoadEntries(c, s, image) && Load(c, s, image) == Some(t) && Consistent(c, t)
    ensures AddressesOk(e, t) && SuccessesOk(e, t)
  {
    var u := LoadTables(c, s, image);
    KeptOfEntered(c, s, image, e, u, t);
    KeptNeeded(c, u, t);
  }

  lemma LoadSuffices(c: Config, s: State, image: Image, e: State, t: State)
    requires c.newBuckets > 0 && e == LoadEntries(c, s, image) && Load(c, s, image) == Some(t)
    requires AddressesOk(e, t) && SuccessesOk(e, t)
    ensures Consistent(c, t)
  {
    var u := LoadTables(c, s, image);
    KeptOfEntered(c, s, image, e, u, t);
    assert AddressesOk(u, t) && SuccessesOk(u, t);
    KeptEnough(c, u, t);
  }

  /** Whatever the file holds, the tables agree exactly when of the entries that came in, those that are
      kept have addresses of their own and admissible statistics.  `e` is what came in. */
  lemma LoadExactly(c: Config, s: State, image: Image, e: State, t: State)
    requires c.newBuckets > 0 && e == LoadEntries(c, s, image) && Load(c, s, image) == Some(t)
    ensures Consistent(c, t) <==> AddressesOk(e, t) && SuccessesOk(e, t)
  {
    if Consistent(c, t) { LoadNeeds(c, s, image, e, t); }
    if AddressesOk(e, t) && SuccessesOk(e, t) { LoadSuffices(c, s, image, e, t); }
  }

  /** Only what came in is kept. */
  lemma LoadKeepsEntered(c: Config, s: State, image: Image, e: State, t: State, id: int)
    requires c.newBuckets > 0 && e == LoadEntries(c, s, image) && Load(c, s, image) == Some(t) && id in t.svc
    ensures id in e.svc && t.svc[id] == e.svc[id] && (id in t.bk.tried <==> id in e.bk.tried)
  {
    KeptOfEntered(c, s, image, e, LoadTables(c, s, image), t);
  }
}
