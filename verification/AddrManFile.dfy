/** Saving the address manager and loading it back.  The file lists the new entries, the tried
    entries and, bucket by bucket, which new entry each occupied slot holds; the tried table, the
    address index and the random order are rebuilt. */
module AddrManFile {
  import opened AddrMan
  import opened Common

  /** What the file keeps of an entry. */
  datatype Record = Record(svc: Service, nTime: int, nServices: Flags, source: NetAddr, nLastSuccess: int,
    nAttempts: int)

  function RecordOf(a: Service, i: Stat): Record {
    Record(a, i.nTime, i.nServices, i.source, i.nLastSuccess, i.nAttempts)
  }

  /** A loaded entry has not been tried yet in this run. */
  function StatOf(r: Record): Stat { Stat(r.nTime, r.nServices, r.source, 0, 0, r.nLastSuccess, r.nAttempts) }

  /** The counts `nNew` and `nTried` are the lengths of the two lists.  A reference says that a slot
      of the bucket holds the new entry at that place in the list.  `usable` says that the file has
      this version and this number of new buckets; otherwise the references are ignored. */
  datatype Reference = Reference(bucket: nat, index: int)
  datatype Image = Image(usable: bool, news: seq<Record>, tried: seq<Record>, refs: seq<Reference>)

  // ------------------------------------------------------------------- loading

  function Enter(s: State, r: Record): State {
    var id := s.ix.nIdCount;
    s.(svc := s.svc[id := r.svc], ix := IxCreate(s.ix, r.svc.ip), bk := BkCreate(s.bk, id),
      stats := s.stats[id := StatOf(r)])
  }

  /** Loading starts from `Clear`, with the new entries already counted. */
  function Start(s: State, nNew: nat): State { Clear(s).(bk := Clear(s).bk.(nNew := nNew)) }

  /** Without usable references a new entry gets the slot of its own source, if that is free. */
  function EnterNew(c: Config, s: State, r: Record, usable: bool): State {
    var id, t := s.ix.nIdCount, Enter(s, r);
    var sl := NewSlotFrom(c, r.svc, r.source);
    if usable || sl in t.bk.vvNew then t else t.(bk := BkRef(t.bk, sl, id))
  }

  function LoadNew(c: Config, s: State, recs: seq<Record>, usable: bool, k: nat): State
    decreases |recs| - k
  {
    if k >= |recs| then s else LoadNew(c, EnterNew(c, s, recs[k], usable), recs, usable, k + 1)
  }

  /** A tried entry whose slot is taken is lost. */
  function LoadOneTried(c: Config, s: State, r: Record): State {
    if TriedSlot(c, r.svc) in s.bk.vvTried then s
    else
      var t := Enter(s, r);
      t.(bk := BkToTried(t.bk, TriedSlot(c, r.svc), s.ix.nIdCount))
  }

  function LoadTried(c: Config, s: State, recs: seq<Record>, k: nat): State
    decreases |recs| - k
  {
    if k >= |recs| then s else LoadTried(c, LoadOneTried(c, s, recs[k]), recs, k + 1)
  }

  /** A reference is used if it names a new entry, its slot is free and the entry may have one more. */
  predicate Usable(c: Config, s: State, nNew: nat, r: Reference) {
    && 0 <= r.index < nNew && r.index in s.svc && r.index in s.bk.refs && s.bk.refs[r.index] < NEW_BUCKETS_PER_ADDRESS
    && r.bucket < c.newBuckets && NewSlot(c, r.bucket, s.svc[r.index]) !in s.bk.vvNew
  }

  function LoadOneRef(c: Config, s: State, nNew: nat, r: Reference): State {
    if Usable(c, s, nNew, r) then s.(bk := BkRef(s.bk, NewSlot(c, r.bucket, s.svc[r.index]), r.index)) else s
  }

  function LoadRefs(c: Config, s: State, nNew: nat, refs: seq<Reference>, k: nat): State
    decreases |refs| - k
  {
    if k >= |refs| then s else LoadRefs(c, LoadOneRef(c, s, nNew, refs[k]), nNew, refs, k + 1)
  }

  /** New entries left without a reference are deleted. */
  function PruneOne(s: State, id: int): State { if CanDelete(s, id) then Delete(s, id) else s }

  function Prune(s: State, id: int, end: int): State
    decreases end - id
  {
    if id >= end then s else Prune(PruneOne(s, id), id + 1, end)
  }

  function LoadEntries(c: Config, s: State, image: Image): State {
    LoadTried(c, LoadNew(c, Start(s, |image.news|), image.news, image.usable, 0), image.tried, 0)
  }

  function LoadTables(c: Config, s: State, image: Image): State {
    var e := LoadEntries(c, s, image);
    if image.usable then LoadRefs(c, e, |image.news|, image.refs, 0) else e
  }

  predicate TooMuch(c: Config, image: Image) {
    |image.news| > c.newBuckets * c.bucketSize || |image.tried| > c.triedBuckets * c.bucketSize
  }

  /** Nothing is loaded from a file that claims more entries than the tables have slots. */
  function Load(c: Config, s: State, image: Image): Option<State> {
    if TooMuch(c, image) then None
    else Some(Prune(LoadTables(c, s, image), 0, LoadTables(c, s, image).ix.nIdCount))
  }

  // ------------------------------------- any sensible file gives consistent tables

  /** What the loader takes on trust: no address twice, and the statistics `Check_` insists on. */
  ghost predicate FileOk(image: Image) {
    && Distinct(image.news + image.tried)
    && (forall i :: 0 <= i < |image.news| ==> image.news[i].nLastSuccess >= 0)
    && (forall i :: 0 <= i < |image.tried| ==> image.tried[i].nLastSuccess > 0)
  }

  ghost predicate Distinct(recs: seq<Record>) { forall k :: 0 <= k < |recs| ==> OnlyAt(recs, k) }

  /** The address of record `k` is in no later record. */
  ghost predicate OnlyAt(recs: seq<Record>, k: nat)
    requires k < |recs|
  {
    forall j :: k < j < |recs| ==> recs[j].svc.ip != recs[k].svc.ip
  }

  /** The addresses of the records from `k` on are not known yet. */
  ghost predicate Unknown(addr: map<NetAddr, int>, all: seq<Record>, k: nat) {
    forall i :: k <= i < |all| ==> all[i].svc.ip !in addr
  }

  /** Entering one more record keeps the invariant, with the new entry still unreferenced. */
  lemma EnterKeeps(c: Config, s: State, r: Record, limbo: set<int>, off: int)
    requires Inv(c, s, limbo, off) && r.svc.ip !in s.ix.mapAddr && r.nLastSuccess >= 0
    ensures s.ix.nIdCount !in s.svc && Inv(c, Enter(s, r), limbo + {s.ix.nIdCount}, off + 1)
  {
    var id := s.ix.nIdCount;
    CreateIndex(s.svc, s.ix, r.svc);
    CreateBooks(c, s.svc, s.bk, limbo, off, id, r.svc);
    CreateStats(s.svc, s.bk.tried, s.stats, id, r.svc, StatOf(r));
  }

  /** The state after `k` of the `n` new entries: none has a reference yet. */
  ghost predicate NewStage(c: Config, s: State, n: nat, all: seq<Record>, k: nat) {
    && Inv(c, s, s.svc.Keys, k - n) && s.ix.nIdCount == k && Unknown(s.ix.mapAddr, all, k)
    && s.bk.tried == {} && s.bk.vvTried == map[]
  }

  lemma NewStart(c: Config, s: State, n: nat, all: seq<Record>)
    requires c.newBuckets > 0
    ensures NewStage(c, Start(s, n), n, all, 0)
  {}

  /** Giving a new entry its first slot. */
  lemma HomeKeeps(c: Config, t: State, id: int, r: Record, limbo: set<int>, off: int)
    requires Inv(c, t, limbo, off) && id in t.svc && id !in t.bk.tried && t.bk.refs[id] == 0 && t.svc[id] == r.svc
    requires NewSlotFrom(c, r.svc, r.source) !in t.bk.vvNew
    ensures Inv(c, t.(bk := BkRef(t.bk, NewSlotFrom(c, r.svc, r.source), id)), limbo, off)
  {
    var sl := NewSlotFrom(c, r.svc, r.source);
    RefBooks(c, t.svc, t.bk, limbo, off, sl, id);
    MoreLimbo(c, t.(bk := BkRef(t.bk, sl, id)), limbo - {id}, limbo, off);
  }

  lemma EnterNewKeeps(c: Config, s: State, r: Record, usable: bool, limbo: set<int>, off: int, t: State)
    requires Inv(c, s, limbo, off) && r.svc.ip !in s.ix.mapAddr && r.nLastSuccess >= 0 && t == EnterNew(c, s, r, usable)
    ensures Inv(c, t, limbo + {s.ix.nIdCount}, off + 1)
  {
    EnterKeeps(c, s, r, limbo, off);
    if !usable && NewSlotFrom(c, r.svc, r.source) !in s.bk.vvNew {
      HomeKeeps(c, Enter(s, r), s.ix.nIdCount, r, limbo + {s.ix.nIdCount}, off + 1);
    }
  }

  lemma NewStep(c: Config, s: State, n: nat, all: seq<Record>, usable: bool, k: nat, t: State, j: nat)
    requires NewStage(c, s, n, all, k) && k < |all| && OnlyAt(all, k) && all[k].nLastSuccess >= 0
    requires t == EnterNew(c, s, all[k], usable) && j == k + 1
    ensures NewStage(c, t, n, all, j)
  {
    assert t.svc.Keys == s.svc.Keys + {k};
    EnterNewKeeps(c, s, all[k], usable, s.svc.Keys, k - n, t);
  }

  ghost predicate NewPart(all: seq<Record>, recs: seq<Record>) {
    recs <= all && forall i :: 0 <= i < |recs| ==> recs[i].nLastSuccess >= 0
  }

  lemma {:induction false} LoadNewKeeps(
    c: Config, s: State, recs: seq<Record>, usable: bool, all: seq<Record>, k: nat, t: State)
    requires NewStage(c, s, |recs|, all, k) && Distinct(all) && NewPart(all, recs) && k <= |recs|
    requires t == LoadNew(c, s, recs, usable, k)
    ensures NewStage(c, t, |recs|, all, |recs|)
    decreases |recs| - k
  {
    if k < |recs| {
      var u := EnterNew(c, s, recs[k], usable);
      assert all[k] == recs[k] && OnlyAt(all, k);
      NewStep(c, s, |recs|, all, usable, k, u, k + 1);
      LoadNewKeeps(c, u, recs, usable, all, k + 1, t);
    }
  }

  lemma TriedStats(svc: Services, tried: set<int>, stats: map<int, Stat>, id: int)
    requires StatsOk(svc, tried, stats) && id in stats && stats[id].nLastSuccess != 0
    ensures StatsOk(svc, tried + {id}, stats)
  {}

  lemma LoadOneTriedKeeps(c: Config, s: State, r: Record, limbo: set<int>, t: State)
    requires Inv(c, s, limbo, 0) && r.svc.ip !in s.ix.mapAddr && r.nLastSuccess > 0 && s.ix.nIdCount !in limbo
    requires t == LoadOneTried(c, s, r)
    ensures Inv(c, t, limbo, 0)
  {
    if TriedSlot(c, r.svc) !in s.bk.vvTried {
      var id, e := s.ix.nIdCount, Enter(s, r);
      EnterKeeps(c, s, r, limbo, 0);
      ToTriedBooks(c, e.svc, e.bk, limbo + {id}, 1, id);
      AddRemove(limbo, id);
      TriedStats(e.svc, e.bk.tried, e.stats, id);
    }
  }

  /** The state while tried entries are entered: only the `n` new ones lack a reference. */
  ghost predicate TriedStage(c: Config, s: State, n: nat, loose: set<int>, all: seq<Record>, k: nat) {
    && Inv(c, s, loose, 0) && s.ix.nIdCount >= n && Unknown(s.ix.mapAddr, all, k)
    && (forall id :: id in loose ==> 0 <= id < n) && (forall id :: id in s.bk.tried ==> id >= n)
  }

  lemma OneTriedUnknown(c: Config, s: State, all: seq<Record>, k: nat, t: State)
    requires Unknown(s.ix.mapAddr, all, k) && k < |all| && OnlyAt(all, k) && t == LoadOneTried(c, s, all[k])
    ensures Unknown(t.ix.mapAddr, all, k + 1) && t.ix.nIdCount >= s.ix.nIdCount
    ensures t.bk.tried <= s.bk.tried + {s.ix.nIdCount}
  {}

  lemma TriedStep(c: Config, s: State, n: nat, loose: set<int>, all: seq<Record>, k: nat, t: State, j: nat)
    requires TriedStage(c, s, n, loose, all, k) && k < |all| && OnlyAt(all, k) && all[k].nLastSuccess > 0
    requires t == LoadOneTried(c, s, all[k]) && j == k + 1
    ensures TriedStage(c, t, n, loose, all, j)
  {
    LoadOneTriedKeeps(c, s, all[k], loose, t);
    OneTriedUnknown(c, s, all, k, t);
  }

  ghost predicate TriedPart(all: seq<Record>, n: nat, recs: seq<Record>) {
    n + |recs| == |all| && forall i :: 0 <= i < |recs| ==> all[n + i] == recs[i] && recs[i].nLastSuccess > 0
  }

  lemma {:induction false} LoadTriedKeeps(
      c: Config, s: State, n: nat, loose: set<int>, all: seq<Record>, recs: seq<Record>, k: nat, t: State)
    requires TriedStage(c, s, n, loose, all, n + k) && Distinct(all) && TriedPart(all, n, recs) && k <= |recs|
    requires t == LoadTried(c, s, recs, k)
    ensures TriedStage(c, t, n, loose, all, |all|)
    decreases |recs| - k
  {
    if k < |recs| {
      var u := LoadOneTried(c, s, recs[k]);
      assert all[n + k] == recs[k] && OnlyAt(all, n + k);
      TriedStep(c, s, n, loose, all, n + k, u, n + (k + 1));
      LoadTriedKeeps(c, u, n, loose, all, recs, k + 1, t);
    }
  }

  lemma StageTurns(c: Config, s: State, n: nat, all: seq<Record>)
    requires NewStage(c, s, n, all, n)
    ensures TriedStage(c, s, n, s.svc.Keys, all, n)
  {}

  lemma FileParts(image: Image, all: seq<Record>)
    requires FileOk(image) && all == image.news + image.tried
    ensures Distinct(all) && NewPart(all, image.news) && TriedPart(all, |image.news|, image.tried)
  {}

  lemma EntriesKeep(c: Config, s: State, image: Image, all: seq<Record>, u: State, e: State)
    requires c.newBuckets > 0 && FileOk(image) && all == image.news + image.tried
    requires u == LoadNew(c, Start(s, |image.news|), image.news, image.usable, 0)
    requires e == LoadTried(c, u, image.tried, 0)
    ensures TriedStage(c, e, |image.news|, u.svc.Keys, all, |all|)
  {
    var n := |image.news|;
    FileParts(image, all);
    NewStart(c, s, n, all);
    LoadNewKeeps(c, Start(s, n), image.news, image.usable, all, 0, u);
    StageTurns(c, u, n, all);
    LoadTriedKeeps(c, u, n, u.svc.Keys, all, image.tried, 0, e);
  }

  lemma MoreLimbo(c: Config, s: State, limbo: set<int>, more: set<int>, off: int)
    requires Inv(c, s, limbo, off) && limbo <= more
    ensures Inv(c, s, more, off)
  {}

  lemma LoadOneRefKeeps(c: Config, s: State, nNew: nat, r: Reference, limbo: set<int>, t: State)
    requires Inv(c, s, limbo, 0) && t == LoadOneRef(c, s, nNew, r) && forall id :: id in s.bk.tried ==> id >= nNew
    ensures Inv(c, t, limbo, 0) && (Usable(c, s, nNew, r) ==> Inv(c, t, limbo - {r.index}, 0))
  {
    if Usable(c, s, nNew, r) {
      RefBooks(c, s.svc, s.bk, limbo, 0, NewSlot(c, r.bucket, s.svc[r.index]), r.index);
      MoreLimbo(c, t, limbo - {r.index}, limbo, 0);
    }
  }

  lemma {:induction false} LoadRefsKeeps(
      c: Config, s: State, nNew: nat, refs: seq<Reference>, k: nat, limbo: set<int>, t: State)
    requires Inv(c, s, limbo, 0) && k <= |refs| && t == LoadRefs(c, s, nNew, refs, k) &&
      forall id :: id in s.bk.tried ==> id >= nNew
    ensures Inv(c, t, limbo, 0) && t.svc == s.svc && t.ix == s.ix && t.bk.tried == s.bk.tried
    decreases |refs| - k
  {
    if k < |refs| {
      var u := LoadOneRef(c, s, nNew, refs[k]);
      LoadOneRefKeeps(c, s, nNew, refs[k], limbo, u);
      LoadRefsKeeps(c, u, nNew, refs, k + 1, limbo, t);
    }
  }

  /** Pruning an id: it is gone, or it was rightly there. */
  lemma PruneOneKeeps(c: Config, s: State, id: int, limbo: set<int>, t: State, rest: set<int>)
    requires Inv(c, s, limbo, 0) && t == PruneOne(s, id) && rest == limbo - {id}
    ensures Inv(c, t, rest, 0)
  {
    if id in s.svc && s.bk.refs[id] == 0 && id !in s.bk.tried {
      DeleteKeeps(c, s, id, limbo, 0);
    }
  }

  lemma NoneBetween(limbo: set<int>, a: int, b: int)
    requires a >= b && forall x :: x in limbo ==> a <= x < b
    ensures limbo == {}
  {
    forall x ensures x !in limbo {}
  }

  lemma {:induction false} PruneRun(inv: (State, set<int>) -> bool, s: State, id: int, end: int, limbo: set<int>)
    requires inv(s, limbo) && forall x :: x in limbo ==> id <= x < end
    requires forall u, i, l :: inv(u, l) ==> inv(PruneOne(u, i), l - {i})
    ensures inv(Prune(s, id, end), {})
    decreases end - id
  {
    if id >= end {
      NoneBetween(limbo, id, end);
    } else {
      PruneRun(inv, PruneOne(s, id), id + 1, end, limbo - {id});
    }
  }

  ghost function InvOf(c: Config): (State, set<int>) -> bool { (s, limbo) => Inv(c, s, limbo, 0) }

  lemma InvIs(c: Config, s: State, limbo: set<int>)
    ensures InvOf(c)(s, limbo) == Inv(c, s, limbo, 0)
  {}

  lemma PruneSteps(c: Config)
    ensures forall u, i, l :: InvOf(c)(u, l) ==> InvOf(c)(PruneOne(u, i), l - {i})
  {
    forall u, i, l | InvOf(c)(u, l) ensures InvOf(c)(PruneOne(u, i), l - {i}) {
      InvIs(c, u, l);
      PruneOneKeeps(c, u, i, l, PruneOne(u, i), l - {i});
      InvIs(c, PruneOne(u, i), l - {i});
    }
  }

  lemma PruneKeeps(c: Config, s: State, limbo: set<int>, t: State)
    requires Inv(c, s, limbo, 0) && t == Prune(s, 0, s.ix.nIdCount) && forall x :: x in limbo ==> 0 <= x < s.ix.nIdCount
    ensures Consistent(c, t)
  {
    InvIs(c, s, limbo);
    PruneSteps(c);
    PruneRun(InvOf(c), s, 0, s.ix.nIdCount, limbo);
    InvIs(c, t, {});
  }

  lemma TablesKeep(
    c: Config, e: State, n: nat, loose: set<int>, all: seq<Record>, k: nat, image: Image, t: State, u: State)
    requires TriedStage(c, e, n, loose, all, k) && t == (if image.usable then LoadRefs(c, e, n, image.refs, 0) else e)
    requires u == Prune(t, 0, t.ix.nIdCount)
    ensures Consistent(c, u)
  {
    if image.usable { LoadRefsKeeps(c, e, n, image.refs, 0, loose, t); }
    PruneKeeps(c, t, loose, u);
  }

  /** Whatever the references say and whichever entries are lost, a file with no address twice loads
      into tables that agree with each other. */
  lemma LoadConsistent(c: Config, s: State, image: Image)
    requires c.newBuckets > 0 && FileOk(image)
    ensures Load(c, s, image).Some? ==> Consistent(c, Load(c, s, image).value)
  {
    if Load(c, s, image).Some? {
      var n, all := |image.news|, image.news + image.tried;
      var u := LoadNew(c, Start(s, n), image.news, image.usable, 0);
      var e := LoadEntries(c, s, image);
      EntriesKeep(c, s, image, all, u, e);
      TablesKeep(c, e, n, u.svc.Keys, all, |all|, image, LoadTables(c, s, image), Load(c, s, image).value);
    }
  }

  // ------------------------------------------------ and only a sensible file does

  /** `k` records read, `s.ix.nIdCount` of them entered: when that is all of them, they are there in
      order, the ones from `n` on tried. */
  ghost predicate Reading(s: State, all: seq<Record>, n: nat, k: nat) {
    && k <= |all| && s.ix.nIdCount <= k && (forall id :: id in s.svc ==> 0 <= id < s.ix.nIdCount)
    && (s.ix.nIdCount == k ==> forall i :: 0 <= i < k ==> ReadAt(s, all, n, i))
  }

  ghost predicate ReadAt(s: State, all: seq<Record>, n: nat, i: nat)
    requires i < |all|
  {
    i in s.svc && i in s.stats && RecordOf(s.svc[i], s.stats[i]) == all[i] && (i >= n ==> i in s.bk.tried)
  }

  lemma {:induction false} NewRead(
      c: Config, s: State, recs: seq<Record>, usable: bool, all: seq<Record>, k: nat, t: State)
    requires Reading(s, all, |recs|, k) && recs <= all && k <= |recs| && t == LoadNew(c, s, recs, usable, k)
    ensures Reading(t, all, |recs|, |recs|)
    decreases |recs| - k
  {
    if k < |recs| {
      var u := EnterNew(c, s, recs[k], usable);
      assert all[k] == recs[k];
      assert Reading(u, all, |recs|, k + 1) by {
        forall i | 0 <= i < k + 1 && u.ix.nIdCount == k + 1 ensures ReadAt(u, all, |recs|, i) {
          assert i < k ==> ReadAt(s, all, |recs|, i);
        }
      }
      NewRead(c, u, recs, usable, all, k + 1, t);
    }
  }

  lemma {:induction false} TriedRead(c: Config, s: State, n: nat, recs: seq<Record>, all: seq<Record>, k: nat, t: State)
    requires Reading(s, all, n, n + k) && n <= |all| && all[n..] == recs && k <= |recs| && t == LoadTried(c, s, recs, k)
    ensures Reading(t, all, n, |all|)
    decreases |recs| - k
  {
    if k < |recs| {
      var u := LoadOneTried(c, s, recs[k]);
      assert all[n + k] == recs[k];
      assert Reading(u, all, n, n + (k + 1)) by {
        forall i | 0 <= i < n + k + 1 && u.ix.nIdCount == n + k + 1 ensures ReadAt(u, all, n, i) {
          assert i < n + k ==> ReadAt(s, all, n, i);
        }
      }
      TriedRead(c, u, n, recs, all, k + 1, t);
    }
  }

  /** Pruning only takes entries away. */
  ghost predicate Kept(s: State, t: State) {
    && t.bk.tried == s.bk.tried && t.ix.nIdCount == s.ix.nIdCount
    && forall id :: id in t.svc ==>
        id in s.svc && t.svc[id] == s.svc[id] &&
        (id in s.stats ==> id in t.stats && t.stats[id] == s.stats[id])
  }

  lemma {:induction false} PruneOnlyTakes(s: State, id: int, end: int, t: State)
    requires t == Prune(s, id, end)
    ensures Kept(s, t)
    decreases end - id
  {
    if id < end {
      var u := PruneOne(s, id);
      assert Kept(s, u);
      PruneOnlyTakes(u, id + 1, end, t);
    }
  }

  lemma ReadStart(s: State, n: nat, all: seq<Record>)
    ensures Reading(Start(s, n), all, n, 0)
  {}

  lemma EntriesRead(c: Config, s: State, image: Image, all: seq<Record>, e: State)
    requires all == image.news + image.tried && e == LoadEntries(c, s, image)
    ensures Reading(e, all, |image.news|, |all|)
  {
    var u := LoadNew(c, Start(s, |image.news|), image.news, image.usable, 0);
    ReadStart(s, |image.news|, all);
    NewRead(c, Start(s, |image.news|), image.news, image.usable, all, 0, u);
    TriedRead(c, u, |image.news|, image.tried, all, 0, e);
  }

  lemma TablesRead(c: Config, s: State, image: Image, all: seq<Record>, t: State, i: nat)
    requires all == image.news + image.tried && Load(c, s, image) == Some(t)
    requires (forall j :: 0 <= j < |all| ==> j in t.svc) && i < |all|
    ensures ReadAt(t, all, |image.news|, i)
  {
    var e, u := LoadEntries(c, s, image), LoadTables(c, s, image);
    EntriesRead(c, s, image, all, e);
    if image.usable { LoadRefsFrame(c, e, |image.news|, image.refs, 0, u); }
    PruneOnlyTakes(u, 0, u.ix.nIdCount, t);
    assert |all| - 1 in t.svc && i in t.svc;
    assert ReadAt(e, all, |image.news|, i);
  }

  /** Of a file none of whose entries is lost, the tables agree exactly when the file is sensible. */
  lemma LoadConsistentIff(c: Config, s: State, image: Image, t: State)
    requires c.newBuckets > 0 && Load(c, s, image) == Some(t)
    requires forall i :: 0 <= i < |image.news| + |image.tried| ==> i in t.svc
    ensures Consistent(c, t) <==> FileOk(image)
  {
    if FileOk(image) { LoadConsistent(c, s, image); }
    if Consistent(c, t) {
      var all := image.news + image.tried;
      forall i | 0 <= i < |all| ensures ReadAt(t, all, |image.news|, i) { TablesRead(c, s, image, all, t, i); }
      ConsistentFile(c, image, all, t);
    }
  }

  lemma ConsistentFile(c: Config, image: Image, all: seq<Record>, t: State)
    requires all == image.news + image.tried && Consistent(c, t) &&
      forall i :: 0 <= i < |all| ==> ReadAt(t, all, |image.news|, i)
    ensures FileOk(image)
  {
    forall k | 0 <= k < |all| ensures OnlyAt(all, k) {
      forall j | k < j < |all| ensures all[j].svc.ip != all[k].svc.ip {
        assert ReadAt(t, all, |image.news|, j) && ReadAt(t, all, |image.news|, k);
        SameAddress(t.svc, t.ix.mapAddr, j, k);
      }
    }
    forall i | 0 <= i < |image.news| ensures image.news[i].nLastSuccess >= 0 {
      assert all[i] == image.news[i] && ReadAt(t, all, |image.news|, i);
    }
    forall i | 0 <= i < |image.tried| ensures image.tried[i].nLastSuccess > 0 {
      assert all[|image.news| + i] == image.tried[i] && ReadAt(t, all, |image.news|, |image.news| + i);
    }
  }

  // -------------------------------------------------------------------- saving

  /** The file lists the referenced entries, the tried entries and the occupied slots, each once.
      The program lists them by id and by position; any order will do.  `places[k]` is the place in
      `news` of the entry in `slots[k]`. */
  datatype Listing = Listing(news: seq<int>, tried: seq<int>, slots: seq<Slot>, places: seq<int>)

  ghost predicate NoTwice<T(!new)>(xs: seq<T>) { forall k :: 0 <= k < |xs| ==> NotAfter(xs, k) }

  ghost predicate NotAfter<T(!new)>(xs: seq<T>, k: nat)
    requires k < |xs|
  {
    forall j :: k < j < |xs| ==> xs[j] != xs[k]
  }

  ghost predicate Lists(l: Listing, s: State) {
    && NoTwice(l.news) && (forall id :: id in l.news <==> id in s.bk.refs && s.bk.refs[id] != 0)
    && NoTwice(l.tried) && (forall id :: id in l.tried <==> id in s.bk.tried)
    && NoTwice(l.slots) && (forall sl :: sl in l.slots <==> sl in s.bk.vvNew)
    && |l.places| == |l.slots|
    && (forall k :: 0 <= k < |l.slots| ==> 0 <= l.places[k] < |l.news| && l.news[l.places[k]] == s.bk.vvNew[l.slots[k]])
  }

  function Records(s: State, ids: seq<int>): (r: seq<Record>)
    requires forall k :: 0 <= k < |ids| ==> ids[k] in s.svc && ids[k] in s.stats
    ensures |r| == |ids| && forall k :: 0 <= k < |ids| ==> r[k] == RecordOf(s.svc[ids[k]], s.stats[ids[k]])
  {
    seq(|ids|, k requires 0 <= k < |ids| => RecordOf(s.svc[ids[k]], s.stats[ids[k]]))
  }

  function References(slots: seq<Slot>, places: seq<int>): (r: seq<Reference>)
    requires |slots| == |places|
    ensures |r| == |slots| && forall k :: 0 <= k < |slots| ==> r[k] == Reference(slots[k].bucket, places[k])
  {
    seq(|slots|, k requires 0 <= k < |slots| => Reference(slots[k].bucket, places[k]))
  }

  ghost predicate CanSave(s: State, l: Listing) {
    && (forall k :: 0 <= k < |l.news| ==> l.news[k] in s.svc && l.news[k] in s.stats)
    && (forall k :: 0 <= k < |l.tried| ==> l.tried[k] in s.svc && l.tried[k] in s.stats)
    && |l.slots| == |l.places|
  }

  ghost function Save(s: State, l: Listing): Image
    requires CanSave(s, l)
  {
    Image(true, Records(s, l.news), Records(s, l.tried), References(l.slots, l.places))
  }

  // --------------------------------------------------- what loading a saved file gives

  /** `t` is `s` with the entries numbered by their place in `ids`; only what a file does not keep
      (the last attempts and the random order) may differ. */
  ghost predicate Renumbered(s: State, t: State, ids: seq<int>) {
    && NoTwice(ids) && (forall id :: id in s.svc <==> id in ids) && (forall i :: i in t.svc <==> 0 <= i < |ids|)
    && (forall i :: 0 <= i < |ids| ==> SameEntry(s, ids[i], t, i))
    && SameTable(s.bk.vvNew, t.bk.vvNew, ids) && SameTable(s.bk.vvTried, t.bk.vvTried, ids)
    && t.bk.nNew == s.bk.nNew && t.bk.nTried == s.bk.nTried
  }

  ghost predicate SameEntry(s: State, id: int, t: State, i: int) {
    && id in s.svc && i in t.svc && id in s.stats && i in t.stats && id in s.bk.refs && i in t.bk.refs
    && RecordOf(t.svc[i], t.stats[i]) == RecordOf(s.svc[id], s.stats[id])
    && t.bk.refs[i] == s.bk.refs[id] && (i in t.bk.tried <==> id in s.bk.tried)
  }

  ghost predicate SameTable(a: Table, b: Table, ids: seq<int>) {
    && a.Keys == b.Keys
    && forall sl :: sl in b ==> 0 <= b[sl] < |ids| && ids[b[sl]] == a[sl]
  }

  /** The first `k` records are in, numbered in order. */
  ghost predicate Entered(s: State, all: seq<Record>, k: nat) {
    && k <= |all| && s.ix.nIdCount == k && s.bk.vvNew == map[]
    && (forall id :: id in s.svc <==> 0 <= id < k)
    && forall i :: 0 <= i < k ==> i in s.stats && RecordOf(s.svc[i], s.stats[i]) == all[i]
  }

  lemma EnterEntered(s: State, all: seq<Record>, k: nat)
    requires Entered(s, all, k) && k < |all|
    ensures Entered(Enter(s, all[k]), all, k + 1)
  {}

  lemma {:induction false} LoadNewEntered(c: Config, s: State, recs: seq<Record>, all: seq<Record>, k: nat, t: State)
    requires Entered(s, all, k) && recs <= all && k <= |recs| && t == LoadNew(c, s, recs, true, k)
    ensures Entered(t, all, |recs|)
    decreases |recs| - k
  {
    if k < |recs| {
      assert all[k] == recs[k];
      EnterEntered(s, all, k);
      LoadNewEntered(c, Enter(s, recs[k]), recs, all, k + 1, t);
    }
  }

  /** The slots of the tried entries still to come are free. */
  ghost predicate Open(slotOf: Service -> Slot, table: Table, all: seq<Record>, k: nat) {
    forall i :: k <= i < |all| ==> slotOf(all[i].svc) !in table
  }

  ghost predicate SlotOnlyAt(slotOf: Service -> Slot, all: seq<Record>, k: nat)
    requires k < |all|
  {
    forall j :: k < j < |all| ==> slotOf(all[j].svc) != slotOf(all[k].svc)
  }

  ghost predicate TriedSoFar(slotOf: Service -> Slot, s: State, n: nat, all: seq<Record>, k: nat) {
    && Entered(s, all, k) && (forall id :: id in s.bk.tried <==> n <= id < k) && Open(slotOf, s.bk.vvTried, all, k)
  }

  lemma TriedEntered(c: Config, slotOf: Service -> Slot, s: State, n: nat, all: seq<Record>, k: nat, t: State)
    requires TriedSoFar(slotOf, s, n, all, k) && n <= k < |all| && SlotOnlyAt(slotOf, all, k)
    requires t == LoadOneTried(c, s, all[k]) && slotOf(all[k].svc) == TriedSlot(c, all[k].svc)
    ensures TriedSoFar(slotOf, t, n, all, k + 1)
  {
    EnterEntered(s, all, k);
  }

  ghost predicate SlotsApart(c: Config, slotOf: Service -> Slot, all: seq<Record>, n: nat) {
    forall i :: n <= i < |all| ==> slotOf(all[i].svc) == TriedSlot(c, all[i].svc) && SlotOnlyAt(slotOf, all, i)
  }

  lemma {:induction false} LoadTriedEntered(
      c: Config, slotOf: Service -> Slot, s: State, n: nat, all: seq<Record>, recs: seq<Record>, k: nat, t: State)
    requires TriedSoFar(slotOf, s, n, all, n + k) && SlotsApart(c, slotOf, all, n) && TriedPart(all, n, recs)
    requires k <= |recs|
    requires t == LoadTried(c, s, recs, k)
    ensures TriedSoFar(slotOf, t, n, all, |all|)
    decreases |recs| - k
  {
    if k < |recs| {
      var u := LoadOneTried(c, s, recs[k]);
      assert all[n + k] == recs[k] && SlotOnlyAt(slotOf, all, n + k);
      TriedEntered(c, slotOf, s, n, all, n + k, u);
      LoadTriedEntered(c, slotOf, u, n, all, recs, k + 1, t);
    }
  }

  // ------------------------------------------------------------ the new table again

  ghost predicate Agrees(table: Table, orig: Table, ids: seq<int>) {
    forall sl :: sl in table ==> sl in orig && 0 <= table[sl] < |ids| && ids[table[sl]] == orig[sl]
  }

  /** While a slot of an entry is still to be filled, the entry has fewer references than it had. */
  lemma Room(table: Table, orig: Table, ids: seq<int>, id: int, sl: Slot)
    requires Agrees(table, orig, ids) && 0 <= id < |ids| && sl in orig && orig[sl] == ids[id] && sl !in table
    ensures |RefSlots(table, id)| < |RefSlots(orig, ids[id])|
  {
    var a, b := RefSlots(table, id), RefSlots(orig, ids[id]);
    assert sl !in a && a + {sl} <= b;
    SubsetSize(a + {sl}, b);
  }

  ghost predicate Placed(table: Table, orig: Table, ids: seq<int>, slots: seq<Slot>, k: nat) {
    && Agrees(table, orig, ids)
    && (forall j :: 0 <= j < k && j < |slots| ==> slots[j] in table) &&
      (forall j :: k <= j < |slots| ==> slots[j] !in table)
  }

  lemma PlaceOne(table: Table, orig: Table, ids: seq<int>, slots: seq<Slot>, k: nat, id: int)
    requires Placed(table, orig, ids, slots, k) && k < |slots| && NotAfter(slots, k)
    requires slots[k] in orig && 0 <= id < |ids| && ids[id] == orig[slots[k]]
    ensures Placed(table[slots[k] := id], orig, ids, slots, k + 1)
  {}

  /** What the references of a saved file say of the entries just loaded. */
  ghost predicate RefsFit(
      c: Config, svc: Services, orig: Table, ids: seq<int>, n: nat, slots: seq<Slot>, places: seq<int>) {
    && |slots| == |places| && n <= |ids| &&
      forall k :: 0 <= k < |slots| ==> RefFits(c, svc, orig, ids, n, slots[k], places[k])
  }

  ghost predicate RefFits(c: Config, svc: Services, orig: Table, ids: seq<int>, n: nat, sl: Slot, id: int) {
    && 0 <= id < n <= |ids| && id in svc && sl in orig && orig[sl] == ids[id]
    && sl.bucket < c.newBuckets && sl == NewSlot(c, sl.bucket, svc[id])
    && |RefSlots(orig, ids[id])| <= NEW_BUCKETS_PER_ADDRESS
  }

  /** A saved reference is always usable. */
  lemma RefUsable(c: Config, s: State, orig: Table, ids: seq<int>, n: nat, sl: Slot, id: int, limbo: set<int>)
    requires BooksOk(c, s.svc, s.bk, limbo, 0) && Agrees(s.bk.vvNew, orig, ids) && sl !in s.bk.vvNew
    requires RefFits(c, s.svc, orig, ids, n, sl, id)
    ensures Usable(c, s, n, Reference(sl.bucket, id))
  {
    Room(s.bk.vvNew, orig, ids, id, sl);
  }

  ghost predicate RefStage(
      c: Config, s: State, orig: Table, ids: seq<int>, n: nat, slots: seq<Slot>, places: seq<int>, limbo: set<int>,
      k: nat) {
    && Inv(c, s, limbo, 0) && (forall id :: id in s.bk.tried ==> id >= n)
    && Placed(s.bk.vvNew, orig, ids, slots, k) && RefsFit(c, s.svc, orig, ids, n, slots, places)
  }

  lemma RefStep(
      c: Config, s: State, orig: Table, ids: seq<int>, n: nat, slots: seq<Slot>, places: seq<int>, limbo: set<int>,
      k: nat, t: State)
    requires RefStage(c, s, orig, ids, n, slots, places, limbo, k) && k < |slots| && NotAfter(slots, k)
    requires t == LoadOneRef(c, s, n, Reference(slots[k].bucket, places[k]))
    ensures RefStage(c, t, orig, ids, n, slots, places, limbo, k + 1)
  {
    var r := Reference(slots[k].bucket, places[k]);
    assert RefFits(c, s.svc, orig, ids, n, slots[k], places[k]);
    RefUsable(c, s, orig, ids, n, slots[k], places[k], limbo);
    LoadOneRefKeeps(c, s, n, r, limbo, t);
    PlaceOne(s.bk.vvNew, orig, ids, slots, k, places[k]);
    assert t == s.(bk := BkRef(s.bk, slots[k], places[k]));
  }

  lemma {:induction false} RefsRun(
      stage: (State, nat) -> bool, c: Config, s: State, n: nat, refs: seq<Reference>, k: nat)
    requires stage(s, k) && k <= |refs|
    requires forall u, i: nat :: i < |refs| && stage(u, i) ==> stage(LoadOneRef(c, u, n, refs[i]), i + 1)
    ensures stage(LoadRefs(c, s, n, refs, k), |refs|)
    decreases |refs| - k
  {
    if k < |refs| { RefsRun(stage, c, LoadOneRef(c, s, n, refs[k]), n, refs, k + 1); }
  }

  ghost function StageOf(
      c: Config, orig: Table, ids: seq<int>, n: nat, slots: seq<Slot>, places: seq<int>, limbo: set<int>)
    : (State, nat) -> bool
  {
    (s: State, k: nat) => RefStage(c, s, orig, ids, n, slots, places, limbo, k)
  }

  lemma StageIs(
      c: Config, s: State, orig: Table, ids: seq<int>, n: nat, slots: seq<Slot>, places: seq<int>, limbo: set<int>,
      k: nat)
    ensures StageOf(c, orig, ids, n, slots, places, limbo)(s, k) ==
      RefStage(c, s, orig, ids, n, slots, places, limbo, k)
  {}

  lemma StageStep(
    c: Config, u: State, orig: Table, ids: seq<int>, n: nat, slots: seq<Slot>, places: seq<int>, limbo: set<int>,
      i: nat, t: State)
    requires i < |slots| == |places| && StageOf(c, orig, ids, n, slots, places, limbo)(u, i) && NotAfter(slots, i)
    requires t == LoadOneRef(c, u, n, Reference(slots[i].bucket, places[i]))
    ensures StageOf(c, orig, ids, n, slots, places, limbo)(t, i + 1)
  {
    StageIs(c, u, orig, ids, n, slots, places, limbo, i);
    RefStep(c, u, orig, ids, n, slots, places, limbo, i, t);
    StageIs(c, t, orig, ids, n, slots, places, limbo, i + 1);
  }

  lemma StageSteps(
      c: Config, orig: Table, ids: seq<int>, n: nat, slots: seq<Slot>, places: seq<int>, limbo: set<int>,
      refs: seq<Reference>)
    requires NoTwice(slots) && |slots| == |places| && refs == References(slots, places)
    ensures var stage := StageOf(c, orig, ids, n, slots, places, limbo);
      forall u, i: nat :: i < |refs| && stage(u, i) ==> stage(LoadOneRef(c, u, n, refs[i]), i + 1)
  {
    var stage := StageOf(c, orig, ids, n, slots, places, limbo);
    forall u, i: nat | i < |refs| && stage(u, i) ensures stage(LoadOneRef(c, u, n, refs[i]), i + 1) {
      assert NotAfter(slots, i);
      StageStep(c, u, orig, ids, n, slots, places, limbo, i, LoadOneRef(c, u, n, refs[i]));
    }
  }

  lemma LoadRefsPlaced(
      c: Config, s: State, orig: Table, ids: seq<int>, n: nat, slots: seq<Slot>, places: seq<int>, limbo: set<int>,
      refs: seq<Reference>, t: State)
    requires RefStage(c, s, orig, ids, n, slots, places, limbo, 0) && NoTwice(slots)
    requires |slots| == |places| && refs == References(slots, places) && t == LoadRefs(c, s, n, refs, 0)
    ensures RefStage(c, t, orig, ids, n, slots, places, limbo, |slots|)
  {
    StageIs(c, s, orig, ids, n, slots, places, limbo, 0);
    StageSteps(c, orig, ids, n, slots, places, limbo, refs);
    RefsRun(StageOf(c, orig, ids, n, slots, places, limbo), c, s, n, refs, 0);
    StageIs(c, t, orig, ids, n, slots, places, limbo, |slots|);
  }

  lemma AllPlaced(table: Table, orig: Table, ids: seq<int>, slots: seq<Slot>)
    requires Placed(table, orig, ids, slots, |slots|) && forall sl :: sl in orig ==> sl in slots
    ensures SameTable(orig, table, ids)
  {
    forall sl ensures sl in orig <==> sl in table {
      if sl in orig {
        var j :| 0 <= j < |slots| && slots[j] == sl;
      }
    }
  }

  lemma Alone<T(!new)>(xs: seq<T>, i: nat, j: nat)
    requires NoTwice(xs) && i < |xs| && j < |xs| && xs[i] == xs[j]
    ensures i == j
  {
    assert NotAfter(xs, i) && NotAfter(xs, j);
  }

  /** Equal tables up to numbering give equal reference counts. */
  lemma SameRefs(a: Table, b: Table, ids: seq<int>, i: nat)
    requires SameTable(a, b, ids) && NoTwice(ids) && i < |ids|
    ensures |RefSlots(b, i)| == |RefSlots(a, ids[i])|
  {
    forall sl | sl in b ensures b[sl] == i <==> a[sl] == ids[i] {
      if a[sl] == ids[i] { Alone(ids, b[sl], i); }
    }
    assert RefSlots(b, i) == RefSlots(a, ids[i]);
  }

  // ------------------------------------------------------ the file of a consistent manager

  /** In consistent tables the referenced entries are the untried ones. */
  lemma Referenced(c: Config, s: State, id: int)
    requires Consistent(c, s) && id in s.svc
    ensures s.bk.refs[id] != 0 <==> id !in s.bk.tried
  {
    if id in s.bk.tried { assert RefSlots(s.bk.vvNew, id) == {}; }
  }

  lemma NoTwiceConcat(a: seq<int>, b: seq<int>)
    requires NoTwice(a) && NoTwice(b) && forall x :: x in a ==> x !in b
    ensures NoTwice(a + b)
  {
    var ids := a + b;
    forall k | 0 <= k < |ids| ensures NotAfter(ids, k) {
      if k < |a| {
        assert NotAfter(a, k) && a[k] in a;
        forall j | k < j < |ids| ensures ids[j] != ids[k] {
          if j >= |a| { assert b[j - |a|] in b; }
        }
      } else {
        assert NotAfter(b, k - |a|);
      }
    }
  }

  ghost predicate IdsOf(s: State, ids: seq<int>, n: nat) {
    && n <= |ids| && NoTwice(ids) && (forall id :: id in s.svc <==> id in ids)
    && forall i :: 0 <= i < |ids| ==> ids[i] in s.svc && ids[i] in s.stats && (ids[i] in s.bk.tried <==> i >= n)
  }

  lemma ListIds(c: Config, s: State, l: Listing)
    requires Consistent(c, s) && Lists(l, s)
    ensures CanSave(s, l) && IdsOf(s, l.news + l.tried, |l.news|)
  {
    var ids := l.news + l.tried;
    forall id | id in s.svc ensures id in l.news <==> id !in l.tried { Referenced(c, s, id); }
    assert forall id :: id in l.news || id in l.tried ==> id in s.svc;
    NoTwiceConcat(l.news, l.tried);
    forall i | 0 <= i < |ids| ensures ids[i] in s.svc && ids[i] in s.stats &&
      (ids[i] in s.bk.tried <==> i >= |l.news|) {
      if i < |l.news| {
        assert ids[i] in l.news;
        Referenced(c, s, ids[i]);
      } else {
        assert ids[i] == l.tried[i - |l.news|] && ids[i] in l.tried;
      }
    }
    assert CanSave(s, l) by {
      forall k | 0 <= k < |l.news| ensures l.news[k] in s.svc && l.news[k] in s.stats { assert l.news[k] in l.news; }
      forall k | 0 <= k < |l.tried| ensures l.tried[k] in s.svc && l.tried[k] in s.stats {
        assert l.tried[k] in l.tried;
      }
    }
  }

  ghost predicate RecordsOf(s: State, ids: seq<int>, all: seq<Record>) {
    |all| == |ids| && forall i :: 0 <= i < |ids| ==>
        ids[i] in s.svc && ids[i] in s.stats &&
        all[i] == RecordOf(s.svc[ids[i]], s.stats[ids[i]])
  }

  /** No address is saved twice and no two tried entries share a slot. */
  lemma SavedDistinct(c: Config, s: State, ids: seq<int>, n: nat, all: seq<Record>)
    requires Consistent(c, s) && IdsOf(s, ids, n) && RecordsOf(s, ids, all)
    ensures Distinct(all)
  {
    forall k | 0 <= k < |all| ensures OnlyAt(all, k) {
      forall j | k < j < |all| ensures all[j].svc.ip != all[k].svc.ip {
        assert NotAfter(ids, k);
        SameAddress(s.svc, s.ix.mapAddr, ids[j], ids[k]);
      }
    }
  }

  lemma SameAddress(svc: Services, addr: map<NetAddr, int>, a: int, b: int)
    requires AddrOk(svc, addr) && a in svc && b in svc && a != b
    ensures svc[a].ip != svc[b].ip
  {}

  lemma SameTriedSlot(c: Config, svc: Services, tried: set<int>, vvTried: Table, a: int, b: int)
    requires TriedOk(c, svc, tried, vvTried) && a in tried && b in tried && a != b
    ensures TriedSlot(c, svc[a]) != TriedSlot(c, svc[b])
  {}

  ghost function SlotOf(c: Config): Service -> Slot { a => TriedSlot(c, a) }

  lemma SavedApart(c: Config, s: State, ids: seq<int>, n: nat, all: seq<Record>)
    requires TriedOk(c, s.svc, s.bk.tried, s.bk.vvTried) && IdsOf(s, ids, n) && RecordsOf(s, ids, all)
    ensures SlotsApart(c, SlotOf(c), all, n)
  {
    var slotOf := SlotOf(c);
    forall k | n <= k < |all| ensures slotOf(all[k].svc) == TriedSlot(c, all[k].svc) && SlotOnlyAt(slotOf, all, k) {
      forall j | k < j < |all| ensures slotOf(all[j].svc) != slotOf(all[k].svc) {
        assert NotAfter(ids, k);
        SameTriedSlot(c, s.svc, s.bk.tried, s.bk.vvTried, ids[j], ids[k]);
      }
    }
  }

  lemma SavedRecords(s: State, l: Listing, ids: seq<int>, all: seq<Record>)
    requires CanSave(s, l) && ids == l.news + l.tried && all == Records(s, l.news) + Records(s, l.tried)
    ensures RecordsOf(s, ids, all)
  {}

  lemma SavedStats(s: State, l: Listing, ids: seq<int>)
    requires CanSave(s, l) && ids == l.news + l.tried && IdsOf(s, ids, |l.news|) && StatsOk(s.svc, s.bk.tried, s.stats)
    ensures forall i :: 0 <= i < |l.news| ==> Records(s, l.news)[i].nLastSuccess >= 0
    ensures forall i :: 0 <= i < |l.tried| ==> Records(s, l.tried)[i].nLastSuccess > 0
  {
    forall i | 0 <= i < |l.news| ensures Records(s, l.news)[i].nLastSuccess >= 0 {
      assert ids[i] == l.news[i];
    }
    forall i | 0 <= i < |l.tried| ensures Records(s, l.tried)[i].nLastSuccess > 0 {
      assert ids[|l.news| + i] == l.tried[i];
    }
  }

  lemma SavedFileOk(c: Config, s: State, l: Listing, ids: seq<int>, all: seq<Record>)
    requires Consistent(c, s) && CanSave(s, l) && ids == l.news + l.tried && IdsOf(s, ids, |l.news|)
    requires all == Records(s, l.news) + Records(s, l.tried)
    ensures RecordsOf(s, ids, all) && FileOk(Save(s, l))
  {
    SavedRecords(s, l, ids, all);
    SavedDistinct(c, s, ids, |l.news|, all);
    SavedStats(s, l, ids);
  }

  /** The entries of a saved file are all in, with their numbers, and none is lost. */
  lemma SavedEntries(
    c: Config, s: State, s0: State, image: Image, ids: seq<int>, n: nat, all: seq<Record>, u: State, t: State)
    requires c.newBuckets > 0 && TriedOk(c, s.svc, s.bk.tried, s.bk.vvTried) && IdsOf(s, ids, n)
    requires RecordsOf(s, ids, all)
    requires n == |image.news| && all == image.news + image.tried && TriedPart(all, n, image.tried)
    requires u == LoadNew(c, Start(s0, n), image.news, true, 0) && t == LoadTried(c, u, image.tried, 0)
    requires NewStage(c, u, n, all, n)
    ensures TriedSoFar(SlotOf(c), t, n, all, |all|)
  {
    LoadNewEntered(c, Start(s0, n), image.news, all, 0, u);
    SavedApart(c, s, ids, n, all);
    LoadTriedEntered(c, SlotOf(c), u, n, all, image.tried, 0, t);
  }

  lemma SavedRefFits(c: Config, s: State, ids: seq<int>, n: nat, all: seq<Record>, e: State, sl: Slot, id: int)
    requires Consistent(c, s) && RecordsOf(s, ids, all) && Entered(e, all, |all|)
    requires sl in s.bk.vvNew && 0 <= id < n <= |ids| && ids[id] == s.bk.vvNew[sl]
    ensures RefFits(c, e.svc, s.bk.vvNew, ids, n, sl, id)
  {
    assert e.svc[id] == s.svc[ids[id]];
  }

  lemma {:induction false} LoadRefsFrame(c: Config, s: State, n: nat, refs: seq<Reference>, k: nat, t: State)
    requires k <= |refs| && t == LoadRefs(c, s, n, refs, k)
    ensures t == s.(bk := s.bk.(refs := t.bk.refs, vvNew := t.bk.vvNew))
    decreases |refs| - k
  {
    if k < |refs| { LoadRefsFrame(c, LoadOneRef(c, s, n, refs[k]), n, refs, k + 1, t); }
  }

  lemma SavedStart(c: Config, s: State, l: Listing, ids: seq<int>, all: seq<Record>, e: State, loose: set<int>)
    requires Consistent(c, s) && Lists(l, s) && ids == l.news + l.tried && RecordsOf(s, ids, all)
    requires Inv(c, e, loose, 0) && TriedSoFar(SlotOf(c), e, |l.news|, all, |all|)
    ensures RefStage(c, e, s.bk.vvNew, ids, |l.news|, l.slots, l.places, loose, 0)
  {
    var n := |l.news|;
    forall k | 0 <= k < |l.slots| ensures RefFits(c, e.svc, s.bk.vvNew, ids, n, l.slots[k], l.places[k]) {
      assert l.slots[k] in l.slots && ids[l.places[k]] == l.news[l.places[k]];
      SavedRefFits(c, s, ids, n, all, e, l.slots[k], l.places[k]);
    }
  }

  lemma SavedNew(
      c: Config, s: State, l: Listing, ids: seq<int>, all: seq<Record>, e: State, loose: set<int>,
      refs: seq<Reference>, t: State)
    requires Consistent(c, s) && Lists(l, s) && ids == l.news + l.tried && RecordsOf(s, ids, all)
    requires Inv(c, e, loose, 0) && TriedSoFar(SlotOf(c), e, |l.news|, all, |all|)
    requires refs == References(l.slots, l.places) && t == LoadRefs(c, e, |l.news|, refs, 0)
    ensures SameTable(s.bk.vvNew, t.bk.vvNew, ids) && Inv(c, t, loose, 0)
  {
    SavedStart(c, s, l, ids, all, e, loose);
    LoadRefsPlaced(c, e, s.bk.vvNew, ids, |l.news|, l.slots, l.places, loose, refs, t);
    AllPlaced(t.bk.vvNew, s.bk.vvNew, ids, l.slots);
  }

  /** The tried table depends only on the tried entries and their addresses. */
  lemma SavedTried(c: Config, s: State, t: State, ids: seq<int>, n: nat)
    requires TriedOk(c, s.svc, s.bk.tried, s.bk.vvTried) && TriedOk(c, t.svc, t.bk.tried, t.bk.vvTried)
    requires IdsOf(s, ids, n)
    requires forall i :: 0 <= i < |ids| ==> i in t.svc && t.svc[i] == s.svc[ids[i]]
    requires forall i :: i in t.bk.tried <==> n <= i < |ids|
    ensures SameTable(s.bk.vvTried, t.bk.vvTried, ids)
  {
    var a, b := s.bk.vvTried, t.bk.vvTried;
    forall sl | sl in b ensures sl in a && 0 <= b[sl] < |ids| && ids[b[sl]] == a[sl] {
      var i := b[sl];
      assert i in t.bk.tried && sl == TriedSlot(c, t.svc[i]);
      var id := ids[i];
      assert id in s.bk.tried && t.svc[i] == s.svc[id];
      assert TriedSlot(c, s.svc[id]) in a;
    }
    forall sl | sl in a ensures sl in b {
      var id := a[sl];
      assert id in s.bk.tried && id in s.svc && sl == TriedSlot(c, s.svc[id]);
      assert id in ids;
      var i :| 0 <= i < |ids| && ids[i] == id;
      assert i in t.bk.tried && TriedSlot(c, t.svc[i]) in b;
    }
  }

  lemma {:induction false} NothingPruned(s: State, id: int, end: int)
    requires forall x :: x in s.svc && x in s.bk.refs ==> s.bk.refs[x] != 0 || x in s.bk.tried
    ensures Prune(s, id, end) == s
    decreases end - id
  {
    if id < end { NothingPruned(s, id + 1, end); }
  }

  /** Nothing is lost: a slot of the old table keeps every new entry referenced. */
  lemma SavedUnpruned(c: Config, s: State, t: State, ids: seq<int>, n: nat, loose: set<int>)
    requires Consistent(c, s) && IdsOf(s, ids, n) && Inv(c, t, loose, 0) && SameTable(s.bk.vvNew, t.bk.vvNew, ids)
    requires forall i :: i in t.svc ==> 0 <= i < |ids|
    ensures forall i :: i in t.svc ==> t.bk.refs[i] == s.bk.refs[ids[i]]
  {
    forall i | i in t.svc ensures t.bk.refs[i] == s.bk.refs[ids[i]] { SameRefs(s.bk.vvNew, t.bk.vvNew, ids, i); }
  }

  // ---------------------------------------------------------------------- sizes

  lemma {:induction false} ListSize(xs: seq<int>, all: set<int>)
    requires NoTwice(xs) && forall x :: x in all <==> x in xs
    ensures |all| == |xs|
    decreases |xs|
  {
    if |xs| == 0 {
      forall x ensures x !in all {}
    } else {
      var rest := xs[1..];
      forall k | 0 <= k < |rest| ensures NotAfter(rest, k) { assert NotAfter(xs, k + 1); }
      var first := xs[0];
      assert NotAfter(xs, 0) && first in xs;
      assert first in all;
      forall x ensures x in all - {xs[0]} <==> x in rest {
        if x in rest { var k :| 0 <= k < |rest| && rest[k] == x; }
      }
      ListSize(rest, all - {xs[0]});
    }
  }

  lemma {:induction false} RangeSize(all: set<int>, a: int, b: int)
    requires a <= b && forall x :: x in all <==> a <= x < b
    ensures |all| == b - a
    decreases b - a
  {
    if a == b {
      forall x ensures x !in all {}
    } else {
      assert a in all;
      RangeSize(all - {a}, a + 1, b);
    }
  }

  /** The counts written in front of the lists are the lengths of the lists. */
  lemma SavedCounts(c: Config, s: State, l: Listing)
    requires Consistent(c, s) && Lists(l, s)
    ensures |l.news| == s.bk.nNew && |l.tried| == s.bk.nTried
  {
    ListIds(c, s, l);
    ListSize(l.news + l.tried, s.svc.Keys);
    ListSize(l.tried, s.bk.tried);
  }

  lemma LoadedCounts(c: Config, t: State, limbo: set<int>, n: nat, m: nat)
    requires BooksOk(c, t.svc, t.bk, limbo, 0) && (forall i :: i in t.svc <==> 0 <= i < n + m)
    requires (forall i :: i in t.bk.tried <==> n <= i < n + m)
    ensures t.bk.nNew == n && t.bk.nTried == m
  {
    RangeSize(t.svc.Keys, 0, n + m);
    RangeSize(t.bk.tried, n, n + m);
  }

  ghost predicate SameStats(s: State, t: State, ids: seq<int>, n: nat) {
    && (forall i :: i in t.svc <==> 0 <= i < |ids|) && (forall i :: i in t.bk.tried <==> n <= i < |ids|)
    && forall i :: 0 <= i < |ids| ==>
         i in t.stats && ids[i] in s.svc && ids[i] in s.stats &&
           RecordOf(t.svc[i], t.stats[i]) == RecordOf(s.svc[ids[i]], s.stats[ids[i]])
  }

  lemma LoadedStats(c: Config, s: State, ids: seq<int>, n: nat, all: seq<Record>, e: State, t: State)
    requires RecordsOf(s, ids, all) && TriedSoFar(SlotOf(c), e, n, all, |all|)
    requires t == e.(bk := e.bk.(refs := t.bk.refs, vvNew := t.bk.vvNew))
    ensures SameStats(s, t, ids, n)
  {
    forall i | 0 <= i < |ids|
      ensures i in t.stats && ids[i] in s.svc && ids[i] in s.stats
      ensures RecordOf(t.svc[i], t.stats[i]) == RecordOf(s.svc[ids[i]], s.stats[ids[i]])
    {
      assert RecordOf(e.svc[i], e.stats[i]) == all[i];
    }
  }

  lemma SameEntries(s: State, t: State, ids: seq<int>, n: nat)
    requires SameStats(s, t, ids, n) && IdsOf(s, ids, n) && s.bk.refs.Keys == s.svc.Keys && t.bk.refs.Keys == t.svc.Keys
    requires forall i :: i in t.svc ==> t.bk.refs[i] == s.bk.refs[ids[i]]
    ensures forall i :: 0 <= i < |ids| ==> SameEntry(s, ids[i], t, i)
  {
    forall i | 0 <= i < |ids| ensures SameEntry(s, ids[i], t, i) {
      assert i in t.svc && ids[i] in s.svc;
    }
  }

  lemma SavedRenumbered(c: Config, s: State, l: Listing, ids: seq<int>, t: State, loose: set<int>)
    requires Consistent(c, s) && Lists(l, s) && ids == l.news + l.tried && IdsOf(s, ids, |l.news|)
    requires SameStats(s, t, ids, |l.news|) && SameTable(s.bk.vvNew, t.bk.vvNew, ids) && Inv(c, t, loose, 0)
    ensures Renumbered(s, t, ids)
  {
    SavedUnpruned(c, s, t, ids, |l.news|, loose);
    SameEntries(s, t, ids, |l.news|);
    SavedTried(c, s, t, ids, |l.news|);
    SavedCounts(c, s, l);
    LoadedCounts(c, t, loose, |l.news|, |l.tried|);
  }

  /** Entries that each sit in a slot are no more than the slots. */
  lemma {:induction false} OneSlotEach(table: Table, ids: seq<int>)
    requires NoTwice(ids) && forall i :: 0 <= i < |ids| ==> RefSlots(table, ids[i]) != {}
    ensures |ids| <= |table.Keys|
    decreases |ids|
  {
    if |ids| > 0 {
      var sl :| sl in RefSlots(table, ids[0]);
      var rest, less := ids[1..], table - {sl};
      assert NotAfter(ids, 0) && less.Keys == table.Keys - {sl};
      forall i | 0 <= i < |rest| ensures NotAfter(rest, i) && RefSlots(less, rest[i]) != {} {
        assert NotAfter(ids, i + 1) && rest[i] == ids[i + 1];
        assert RefSlots(table, ids[i + 1]) != {};
        var x :| x in RefSlots(table, ids[i + 1]);
        assert x in RefSlots(less, rest[i]);
      }
      OneSlotEach(less, rest);
    }
  }

  ghost function Row(b: nat, size: nat): set<Slot> { if size == 0 then {} else Row(b, size - 1) + {Slot(b, size - 1)} }

  lemma {:induction false} RowMeans(b: nat, size: nat)
    ensures |Row(b, size)| == size && forall sl :: sl in Row(b, size) <==> sl.bucket == b && sl.pos < size
  {
    if size > 0 { RowMeans(b, size - 1); }
  }

  ghost function Grid(
      buckets: nat, size: nat): set<Slot> { if buckets == 0 then {}
        else Grid(buckets - 1, size) + Row(buckets - 1, size) }

  lemma {:induction false} GridMembers(buckets: nat, size: nat)
    ensures forall sl :: sl in Grid(buckets, size) <==> sl.bucket < buckets && sl.pos < size
    decreases buckets
  {
    if buckets > 0 {
      var rest, row := Grid(buckets - 1, size), Row(buckets - 1, size);
      GridMembers(buckets - 1, size);
      RowMeans(buckets - 1, size);
      forall sl ensures sl in Grid(buckets, size) <==> sl.bucket < buckets && sl.pos < size {
        assert sl in Grid(buckets, size) <==> sl in rest || sl in row;
      }
    }
  }

  lemma OneRowMore(buckets: nat, size: nat)
    ensures |Grid(buckets + 1, size)| == |Grid(buckets, size)| + size
  {
    GridMembers(buckets, size);
    RowMeans(buckets, size);
    assert Grid(buckets, size) !! Row(buckets, size);
  }

  lemma {:induction false} GridSize(buckets: nat, size: nat, area: int)
    requires area == |Grid(buckets, size)|
    ensures area == buckets * size
    decreases buckets
  {
    if buckets > 0 {
      OneRowMore(buckets - 1, size);
      GridSize(buckets - 1, size, area - size);
    }
  }

  lemma TableFits(table: Table, ids: seq<int>, buckets: nat, size: nat)
    requires NoTwice(ids) && forall i :: 0 <= i < |ids| ==> RefSlots(table, ids[i]) != {}
    requires forall sl :: sl in table ==> sl.bucket < buckets && sl.pos < size
    ensures |ids| <= buckets * size
  {
    OneSlotEach(table, ids);
    GridMembers(buckets, size);
    GridSize(buckets, size, |Grid(buckets, size)|);
    forall sl: Slot | sl in table.Keys ensures sl in Grid(buckets, size) {}
    SubsetSize(table.Keys, Grid(buckets, size));
  }

  /** What is saved is never refused as too much. */
  lemma SavedFits(c: Config, s: State, l: Listing)
    requires Consistent(c, s) && Lists(l, s) && c.triedBuckets > 0 && c.bucketSize > 0
    ensures |l.news| <= c.newBuckets * c.bucketSize && |l.tried| <= c.triedBuckets * c.bucketSize
  {
    forall i | 0 <= i < |l.news| ensures RefSlots(s.bk.vvNew, l.news[i]) != {} {
      var id := l.news[i];
      assert id in l.news;
      assert |RefSlots(s.bk.vvNew, id)| != 0;
    }
    TableFits(s.bk.vvNew, l.news, c.newBuckets, c.bucketSize);
    forall i | 0 <= i < |l.tried| ensures RefSlots(s.bk.vvTried, l.tried[i]) != {} {
      var id := l.tried[i];
      assert id in l.tried;
      assert TriedSlot(c, s.svc[id]) in RefSlots(s.bk.vvTried, id);
    }
    TableFits(s.bk.vvTried, l.tried, c.triedBuckets, c.bucketSize);
  }

  lemma SavedLoads(
    c: Config, s: State, s0: State, l: Listing, ids: seq<int>, all: seq<Record>, u: State, e: State, t: State)
    requires Consistent(c, s) && Lists(l, s) && CanSave(s, l) && ids == l.news + l.tried && IdsOf(s, ids, |l.news|)
    requires all == Records(s, l.news) + Records(s, l.tried)
    requires u == LoadNew(c, Start(s0, |l.news|), Records(s, l.news), true, 0)
    requires e == LoadTried(c, u, Records(s, l.tried), 0)
    requires t == LoadRefs(c, e, |l.news|, References(l.slots, l.places), 0)
    ensures Renumbered(s, t, ids)
  {
    var image, n := Save(s, l), |l.news|;
    SavedFileOk(c, s, l, ids, all);
    FileParts(image, all);
    NewStart(c, s0, n, all);
    LoadNewKeeps(c, Start(s0, n), image.news, true, all, 0, u);
    SavedEntries(c, s, s0, image, ids, n, all, u, e);
    EntriesKeep(c, s0, image, all, u, e);
    SavedNew(c, s, l, ids, all, e, u.svc.Keys, image.refs, t);
    LoadRefsFrame(c, e, n, image.refs, 0, t);
    LoadedStats(c, s, ids, n, all, e, t);
    SavedRenumbered(c, s, l, ids, t, u.svc.Keys);
  }

  lemma RenumberedUnpruned(c: Config, s: State, t: State, ids: seq<int>)
    requires Consistent(c, s) && Renumbered(s, t, ids)
    ensures Prune(t, 0, t.ix.nIdCount) == t
  {
    forall i | i in t.svc && i in t.bk.refs ensures t.bk.refs[i] != 0 || i in t.bk.tried {
      assert SameEntry(s, ids[i], t, i);
      Referenced(c, s, ids[i]);
    }
    NothingPruned(t, 0, t.ix.nIdCount);
  }

  lemma SavedResult(c: Config, s: State, s0: State, l: Listing, ids: seq<int>, image: Image, t: State)
    requires Consistent(c, s) && Lists(l, s) && CanSave(s, l) && image == Save(s, l) && ids == l.news + l.tried
    requires IdsOf(s, ids, |l.news|) && t == LoadTables(c, s0, image)
    ensures Renumbered(s, t, ids) && Prune(t, 0, t.ix.nIdCount) == t
  {
    var all := Records(s, l.news) + Records(s, l.tried);
    var u := LoadNew(c, Start(s0, |l.news|), image.news, true, 0);
    SavedLoads(c, s, s0, l, ids, all, u, LoadEntries(c, s0, image), t);
    RenumberedUnpruned(c, s, t, ids);
  }

  /** Saving consistent tables and loading the file, into whatever manager, gives the same tables up
      to the numbering of the entries: nothing is refused, lost or pruned, whatever order the lists
      were written in. */
  lemma RoundTrip(c: Config, s: State, s0: State, l: Listing)
    requires Consistent(c, s) && Lists(l, s) && c.triedBuckets > 0 && c.bucketSize > 0
    ensures CanSave(s, l) && FileOk(Save(s, l)) && Load(c, s0, Save(s, l)).Some?
    ensures Renumbered(s, Load(c, s0, Save(s, l)).value, l.news + l.tried)
    ensures Consistent(c, Load(c, s0, Save(s, l)).value)
  {
    ListIds(c, s, l);
    var ids, image := l.news + l.tried, Save(s, l);
    SavedFileOk(c, s, l, ids, Records(s, l.news) + Records(s, l.tried));
    SavedFits(c, s, l);
    var t := LoadTables(c, s0, image);
    SavedResult(c, s, s0, l, ids, image, t);
    LoadConsistent(c, s0, image);
    assert Load(c, s0, image) == Some(t);
  }

  // --------------------------------------------------- what loading does not reset

  lemma {:induction false} NewCollisions(c: Config, s: State, recs: seq<Record>, usable: bool, k: nat)
    ensures LoadNew(c, s, recs, usable, k).collisions == s.collisions
    decreases |recs| - k
  {
    if k < |recs| { NewCollisions(c, EnterNew(c, s, recs[k], usable), recs, usable, k + 1); }
  }

  lemma {:induction false} TriedCollisions(c: Config, s: State, recs: seq<Record>, k: nat)
    ensures LoadTried(c, s, recs, k).collisions == s.collisions
    decreases |recs| - k
  {
    if k < |recs| { TriedCollisions(c, LoadOneTried(c, s, recs[k]), recs, k + 1); }
  }

  lemma {:induction false} PruneCollisions(s: State, id: int, end: int)
    ensures Prune(s, id, end).collisions == s.collisions
    decreases end - id
  {
    if id < end { PruneCollisions(PruneOne(s, id), id + 1, end); }
  }

  lemma EntriesCollisions(c: Config, s: State, image: Image, e: State)
    requires e == LoadEntries(c, s, image)
    ensures e.collisions == s.collisions
  {
    var u := LoadNew(c, Start(s, |image.news|), image.news, image.usable, 0);
    NewCollisions(c, Start(s, |image.news|), image.news, image.usable, 0);
    TriedCollisions(c, u, image.tried, 0);
  }

  lemma TablesCollisions(c: Config, s: State, image: Image, t: State)
    requires t == LoadTables(c, s, image)
    ensures t.collisions == s.collisions
  {
    var e := LoadEntries(c, s, image);
    EntriesCollisions(c, s, image, e);
    if image.usable { LoadRefsFrame(c, e, |image.news|, image.refs, 0, t); }
  }

  /** The pending collisions of the old tables survive loading, now naming other entries or none. */
  lemma LoadKeepsPending(c: Config, s: State, image: Image)
    ensures Load(c, s, image).Some? ==> Load(c, s, image).value.collisions == s.collisions
  {
    if Load(c, s, image).Some? {
      var t := LoadTables(c, s, image);
      TablesCollisions(c, s, image, t);
      PruneCollisions(t, 0, t.ix.nIdCount);
    }
  }

  lemma Area(buckets: nat, size: nat)
    ensures buckets * size >= 0
  {}

  lemma EmptyLoads(c: Config, s: State, image: Image, t: State)
    requires image == Image(true, [], [], []) && t == Clear(s)
    ensures Load(c, s, image) == Some(t)
  {
    Area(c.newBuckets, c.bucketSize);
    Area(c.triedBuckets, c.bucketSize);
    assert Start(s, 0) == t;
    assert LoadNew(c, t, [], true, 0) == t && LoadTried(c, t, [], 0) == t && LoadRefs(c, t, 0, [], 0) == t;
    assert Prune(t, 0, 0) == t;
  }

  /** Loading an empty file comes to `Clear`, so it too leaves stale ids behind exactly when
      something was pending. */
  lemma LoadEmpty(c: Config, s: State, a: Address)
    requires CollisionsOk(c, s) && c.newBuckets > 0 && c.routable(a.service.ip)
    ensures Load(c, s, Image(true, [], [], [])) == Some(Clear(s))
    ensures CollisionsOk(c, Load(c, s, Image(true, [], [], [])).value) <==> s.collisions == {}
  {
    EmptyLoads(c, s, Image(true, [], [], []), Clear(s));
    ClearLeavesStale(c, s, a, 0, 0, 1, true);
  }

  // ------------------------------------------------------------------ the two loops

  method Unserialize(c: Config, was: State, image: Image) returns (r: Option<State>)
    ensures r == Load(c, was, image)
  {
    if TooMuch(c, image) { return None; }
    var s := ReadNew(c, Start(was, |image.news|), image.news, image.usable);
    s := ReadTried(c, s, image.tried);
    if image.usable { s := ReadReferences(c, s, |image.news|, image.refs); }
    var k, end := 0, s.ix.nIdCount;
    ghost var goal := Prune(s, 0, end);
    while k < end
      invariant k <= end && Prune(s, k, end) == goal
    {
      s, k := PruneOne(s, k), k + 1;
    }
    r := Some(s);
  }

  method ReadNew(c: Config, start: State, recs: seq<Record>, usable: bool) returns (s: State)
    ensures s == LoadNew(c, start, recs, usable, 0)
  {
    s := start;
    var k := 0;
    while k < |recs|
      invariant k <= |recs| && LoadNew(c, s, recs, usable, k) == LoadNew(c, start, recs, usable, 0)
    {
      s, k := EnterNew(c, s, recs[k], usable), k + 1;
    }
  }

  method ReadTried(c: Config, start: State, recs: seq<Record>) returns (s: State)
    ensures s == LoadTried(c, start, recs, 0)
  {
    s := start;
    var k := 0;
    while k < |recs|
      invariant k <= |recs| && LoadTried(c, s, recs, k) == LoadTried(c, start, recs, 0)
    {
      s, k := LoadOneTried(c, s, recs[k]), k + 1;
    }
  }

  method ReadReferences(c: Config, e: State, n: nat, refs: seq<Reference>) returns (s: State)
    ensures s == LoadRefs(c, e, n, refs, 0)
  {
    s := e;
    var k := 0;
    while k < |refs|
      invariant k <= |refs| && LoadRefs(c, s, n, refs, k) == LoadRefs(c, e, n, refs, 0)
    {
      s, k := LoadOneRef(c, s, n, refs[k]), k + 1;
    }
  }

  /** The ids below `id` that belong in a list, in a list without repetition. */
  ghost predicate Listed(ids: seq<int>, wanted: set<int>, id: int) {
    NoTwice(ids) && forall x :: x in ids <==> x in wanted && x < id
  }

  lemma ListNext(ids: seq<int>, wanted: set<int>, id: int)
    requires Listed(ids, wanted, id)
    ensures Listed(if id in wanted then ids + [id] else ids, wanted, id + 1)
  {
    if id in wanted {
      var more := ids + [id];
      forall k | 0 <= k < |more| ensures NotAfter(more, k) {
        if k < |ids| { assert NotAfter(ids, k) && ids[k] in ids; }
      }
    }
  }

  lemma RecordsNext(s: State, ids: seq<int>, id: int)
    requires id in s.svc && id in s.stats && forall k :: 0 <= k < |ids| ==> ids[k] in s.svc && ids[k] in s.stats
    ensures Records(s, ids + [id]) == Records(s, ids) + [RecordOf(s.svc[id], s.stats[id])]
  {}

  /** The records of the wanted ids in ascending order, and each one's place in the list. */
  method WriteRecords(
      c: Config, s: State, wanted: set<int>) returns (recs: seq<Record>, place: map<int, int>, ghost ids: seq<int>)
    requires Consistent(c, s) && wanted <= s.svc.Keys
    ensures Listed(ids, wanted, s.ix.nIdCount) && forall x :: x in wanted ==> x < s.ix.nIdCount
    ensures (forall k :: 0 <= k < |ids| ==> ids[k] in s.svc && ids[k] in s.stats) && recs == Records(s, ids)
    ensures forall x :: x in wanted ==> x in place && 0 <= place[x] < |ids| && ids[place[x]] == x
  {
    recs, place, ids := [], map[], [];
    var id := 0;
    while id < s.ix.nIdCount
      invariant 0 <= id <= s.ix.nIdCount && Listed(ids, wanted, id)
      invariant (forall k :: 0 <= k < |ids| ==> ids[k] in s.svc && ids[k] in s.stats) && recs == Records(s, ids)
      invariant forall x :: x in wanted && x < id ==> x in place && 0 <= place[x] < |ids| && ids[place[x]] == x
    {
      ListNext(ids, wanted, id);
      if id in wanted {
        RecordsNext(s, ids, id);
        place := place[id := |recs|];
        recs := recs + [RecordOf(s.svc[id], s.stats[id])];
        ids := ids + [id];
      }
      id := id + 1;
    }
  }

  /** The slots before bucket `b`, position `p`. */
  ghost predicate Before(sl: Slot, b: nat, p: nat) { sl.bucket < b || (sl.bucket == b && sl.pos < p) }

  ghost predicate SlotsListed(slots: seq<Slot>, table: Table, b: nat, p: nat) {
    NoTwice(slots) && forall sl :: sl in slots <==> sl in table && Before(sl, b, p)
  }

  ghost predicate PlacesListed(slots: seq<Slot>, places: seq<int>, table: Table, ids: seq<int>) {
    |places| == |slots| && forall k :: 0 <= k < |slots| ==>
        slots[k] in table && 0 <= places[k] < |ids| &&
        ids[places[k]] == table[slots[k]]
  }

  lemma SlotNext(slots: seq<Slot>, table: Table, b: nat, p: nat)
    requires SlotsListed(slots, table, b, p)
    ensures SlotsListed(if Slot(b, p) in table then slots + [Slot(b, p)] else slots, table, b, p + 1)
  {
    var sl := Slot(b, p);
    if sl in table {
      var more := slots + [sl];
      forall k | 0 <= k < |more| ensures NotAfter(more, k) {
        if k < |slots| { assert NotAfter(slots, k) && slots[k] in slots; }
      }
    }
  }

  lemma BucketNext(slots: seq<Slot>, table: Table, b: nat, size: nat)
    requires SlotsListed(slots, table, b, size) && forall sl :: sl in table ==> sl.pos < size
    ensures SlotsListed(slots, table, b + 1, 0)
  {}

  /** One more reference, or none when the slot is empty. */
  lemma PlaceNext(slots: seq<Slot>, places: seq<int>, table: Table, ids: seq<int>, sl: Slot, index: int)
    requires PlacesListed(slots, places, table, ids) && sl in table && 0 <= index < |ids| && ids[index] == table[sl]
    ensures PlacesListed(slots + [sl], places + [index], table, ids)
    ensures References(slots + [sl], places + [index]) == References(slots, places) + [Reference(sl.bucket, index)]
  {}

  ghost predicate PlacesKnown(table: Table, place: map<int, int>, ids: seq<int>) {
    forall sl :: sl in table ==>
        table[sl] in place && 0 <= place[table[sl]] < |ids| &&
        ids[place[table[sl]]] == table[sl]
  }

  /** The references bucket by bucket, in the order of the positions. */
  method WriteReferences(table: Table, buckets: nat, size: nat, place: map<int, int>, ghost ids: seq<int>)
    returns (refs: seq<Reference>, ghost slots: seq<Slot>, ghost places: seq<int>)
    requires PlacesKnown(table, place, ids) && forall sl :: sl in table ==> sl.pos < size
    ensures SlotsListed(slots, table, buckets, 0) && PlacesListed(slots, places, table, ids)
    ensures refs == References(slots, places)
  {
    refs, slots, places := [], [], [];
    var b := 0;
    while b < buckets
      invariant b <= buckets && SlotsListed(slots, table, b, 0)
      invariant PlacesListed(slots, places, table, ids) && refs == References(slots, places)
    {
      var p := 0;
      while p < size
        invariant p <= size && SlotsListed(slots, table, b, p)
        invariant PlacesListed(slots, places, table, ids) && refs == References(slots, places)
      {
        SlotNext(slots, table, b, p);
        if Slot(b, p) in table {
          var index := place[table[Slot(b, p)]];
          PlaceNext(slots, places, table, ids, Slot(b, p), index);
          refs := refs + [Reference(b, index)];
          slots, places := slots + [Slot(b, p)], places + [index];
        }
        p := p + 1;
      }
      BucketNext(slots, table, b, size);
      b := b + 1;
    }
  }

  lemma SlotsReferenced(c: Config, s: State, referenced: set<int>, place: map<int, int>, ids: seq<int>)
    requires Consistent(c, s) && forall id :: id in s.bk.refs && s.bk.refs[id] != 0 ==> id in referenced
    requires forall x :: x in referenced ==> x in place && 0 <= place[x] < |ids| && ids[place[x]] == x
    ensures PlacesKnown(s.bk.vvNew, place, ids)
  {
    forall sl | sl in s.bk.vvNew
      ensures s.bk.vvNew[sl] in place && 0 <= place[s.bk.vvNew[sl]] < |ids|
      ensures ids[place[s.bk.vvNew[sl]]] == s.bk.vvNew[sl]
    {
      var id := s.bk.vvNew[sl];
      Referenced(c, s, id);
      assert id in referenced;
    }
  }

  lemma ListsMade(c: Config, s: State, referenced: set<int>, l: Listing)
    requires Consistent(c, s) && forall id :: id in referenced <==> id in s.bk.refs && s.bk.refs[id] != 0
    requires Listed(l.news, referenced, s.ix.nIdCount) && Listed(l.tried, s.bk.tried, s.ix.nIdCount)
    requires SlotsListed(l.slots, s.bk.vvNew, c.newBuckets, 0) && PlacesListed(l.slots, l.places, s.bk.vvNew, l.news)
    ensures Lists(l, s)
  {
    forall id ensures id in l.news <==> id in s.bk.refs && s.bk.refs[id] != 0 {
      assert id in s.bk.refs ==> id in s.svc;
    }
    forall id ensures id in l.tried <==> id in s.bk.tried { assert id in s.bk.tried ==> id in s.svc; }
    forall sl ensures sl in l.slots <==> sl in s.bk.vvNew { assert sl in s.bk.vvNew ==> Before(sl, c.newBuckets, 0); }
  }

  /** The program's own order is one of those that `RoundTrip` speaks of. */
  method Serialize(c: Config, s: State) returns (image: Image, ghost l: Listing)
    requires Consistent(c, s) && c.bucketSize > 0
    ensures Lists(l, s) && CanSave(s, l) && image == Save(s, l)
    ensures |image.news| == s.bk.nNew && |image.tried| == s.bk.nTried
  {
    var referenced := set id | id in s.bk.refs && s.bk.refs[id] != 0;
    var news, place, ids := WriteRecords(c, s, referenced);
    var tried, _, triedIds := WriteRecords(c, s, s.bk.tried);
    SlotsReferenced(c, s, referenced, place, ids);
    var refs, slots, places := WriteReferences(s.bk.vvNew, c.newBuckets, c.bucketSize, place, ids);
    l := Listing(ids, triedIds, slots, places);
    ListsMade(c, s, referenced, l);
    SavedCounts(c, s, l);
    image := Image(true, news, tried, refs);
  }
}
