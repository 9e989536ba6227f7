/** The parallel check queue: one master adds checks and waits for them, any number of workers
    help.  Every critical section of `Loop` and `Add` is one step; threads interleave freely. */
module CheckQueue {
  import opened Common

  /** A verification job; `ok` is what calling it returns. */
  datatype Check = Check(id: nat, ok: bool)

  /** The fields guarded by the mutex. */
  datatype Shared = Shared(queue: seq<Check>, nIdle: int, nTotal: int, fAllOk: bool, nTodo: int)

  function Min(a: int, b: int): int { if a < b then a else b }
  function Max(a: int, b: int): int { if a > b then a else b }

  function Reversed(s: seq<Check>): (r: seq<Check>)
    ensures |r| == |s| && forall i :: 0 <= i < |s| ==> r[i] == s[|s| - 1 - i]
  {
    seq(|s|, i requires 0 <= i < |s| => s[|s| - 1 - i])
  }

  predicate AllOk(s: seq<Check>) { forall i :: 0 <= i < |s| ==> s[i].ok }

  /** How often `c` occurs in `s`. */
  function Count(s: seq<Check>, c: Check): nat {
    if s == [] then 0 else Count(s[..|s| - 1], c) + if s[|s| - 1] == c then 1 else 0
  }

  lemma {:induction false} CountIn(s: seq<Check>, c: Check)
    ensures Count(s, c) > 0 <==> c in s
  {
    if s != [] {
      CountIn(s[..|s| - 1], c);
      assert s == s[..|s| - 1] + [s[|s| - 1]];
    }
  }

  lemma {:induction false} CountConcat(a: seq<Check>, b: seq<Check>, c: Check)
    ensures Count(a + b, c) == Count(a, c) + Count(b, c)
  {
    if b == [] { assert a + b == a; }
    else {
      assert (a + b)[..|a + b| - 1] == a + b[..|b| - 1];
      CountConcat(a, b[..|b| - 1], c);
    }
  }

  lemma {:induction false} CountReversed(s: seq<Check>, c: Check)
    ensures Count(Reversed(s), c) == Count(s, c)
  {
    if s != [] {
      var n := |s| - 1;
      CountReversed(s[..n], c);
      assert Reversed(s) == [s[n]] + Reversed(s[..n]);
      CountConcat([s[n]], Reversed(s[..n]), c);
      assert [s[n]][..0] == [];
    }
  }

  /** Integer division, by repeated subtraction. */
  function Quotient(n: nat, d: nat): (r: nat)
    requires d > 0
    ensures r <= n
  {
    if n < d then 0 else 1 + Quotient(n - d, d)
  }

  lemma {:induction false} QuotientDivides(n: nat, d: nat)
    requires d > 0
    ensures Quotient(n, d) == n / d
  {
    if n < d { Euclid(n, d, 0); }
    else {
      QuotientDivides(n - d, d);
      Euclid(n, d, (n - d) / d + 1);
    }
  }

  lemma Euclid(n: int, d: int, q: int)
    requires d > 0 && d * q <= n < d * q + d
    ensures n / d == q
  {
    Bounded(d, n / d - q);
  }

  lemma Bounded(d: int, x: int)
    requires d > 0
    ensures -d < d * x < d ==> x == 0
  {
    if x > 0 { assert d * x >= d; }
    else if x < 0 { assert d * x <= -d; }
  }

  /** How many checks to take: a fair share of the queue, at least one, at most a batch. */
  function BatchCount(q: Shared, nBatchSize: nat): (n: int)
    requires q.nTotal + q.nIdle + 1 > 0
    ensures 1 <= n && (q.queue != [] ==> n <= |q.queue|) && n <= Max(1, nBatchSize)
  {
    Max(1, Min(nBatchSize, Quotient(|q.queue|, q.nTotal + q.nIdle + 1)))
  }

  lemma BatchCountIsShare(q: Shared, nBatchSize: nat)
    requires q.nTotal + q.nIdle + 1 > 0
    ensures BatchCount(q, nBatchSize) == Max(1, Min(nBatchSize, |q.queue| / (q.nTotal + q.nIdle + 1)))
  {
    QuotientDivides(|q.queue|, q.nTotal + q.nIdle + 1);
  }

  datatype Outcome = Return(ret: bool) | Sleep | Take(batch: seq<Check>)

  function Report(q: Shared, nNow: nat, ok: bool): Shared {
    q.(fAllOk := q.fAllOk && ok, nTodo := q.nTodo - nNow)
  }

  /** The `while (queue.empty())` decision and the taking of a batch. */
  function Decide(q: Shared, master: bool, nBatchSize: nat): (Shared, Outcome)
    requires q.nTotal + q.nIdle + 1 > 0
  {
    if q.queue == [] then
      if master && q.nTodo == 0 then (q.(nTotal := q.nTotal - 1, fAllOk := true), Return(q.fAllOk))
      else (q.(nIdle := q.nIdle + 1), Sleep)
    else
      var rest := |q.queue| - BatchCount(q, nBatchSize);
      (q.(queue := q.queue[..rest]), Take(Reversed(q.queue[rest..])))
  }

  // ------------------------------------------------------------ the protocol

  /** Where a thread is.  `Busy` holds a batch outside the lock, `done` of it evaluated. */
  datatype Thread =
    | Out
    | Entering
    | Asleep
    | Awake
    | Busy(batch: seq<Check>, done: nat, ok: bool)

  /** Thread 0 is the master.  `added` and `reported` describe the current round, `rounds` the
      finished ones: what was added and what `Wait` returned. */
  datatype State = State(
    q: Shared, threads: seq<Thread>, nBatchSize: nat,
    added: seq<Check>, reported: seq<Check>, rounds: seq<(seq<Check>, bool)>)

  datatype Step =
    | Add(checks: seq<Check>, woken: nat)   // `woken`: whom notify_one picks, 0 for nobody
    | Enter(i: nat)
    | Work(i: nat)
    | Lock(i: nat)
    | Spurious(i: nat)

  predicate CanLock(t: Thread) {
    t.Entering? || t.Awake? || (t.Busy? && t.done == |t.batch|)
  }

  predicate Enabled(s: State, step: Step) {
    |s.threads| > 0 &&
    match step
    case Add(checks, w) =>
      && s.threads[0].Out?
      && w < |s.threads|
      && (w > 0 ==> s.threads[w].Asleep?)
      && (w == 0 && |checks| == 1 ==> forall i :: 0 < i < |s.threads| ==> !s.threads[i].Asleep?)
    case Enter(i) => i < |s.threads| && s.threads[i].Out?
    case Work(i) => i < |s.threads| && s.threads[i].Busy? && s.threads[i].done < |s.threads[i].batch|
    case Lock(i) => i < |s.threads| && CanLock(s.threads[i]) &&
      CleanUp(s.q, s.threads[i]).nTotal + CleanUp(s.q, s.threads[i]).nIdle + 1 > 0
    case Spurious(i) => i < |s.threads| && s.threads[i].Asleep?
  }

  function WakeOne(threads: seq<Thread>, i: nat): seq<Thread>
    requires i < |threads|
  {
    if threads[i].Asleep? then threads[i := Awake] else threads
  }

  function WakeWorkers(threads: seq<Thread>): (r: seq<Thread>)
    ensures |r| == |threads|
  {
    seq(|threads|, i requires 0 <= i < |threads| => if i > 0 && threads[i].Asleep? then Awake else threads[i])
  }

  /** The clean-up of the previous loop run, or the bookkeeping of the first. */
  function CleanUp(q: Shared, t: Thread): Shared
    requires CanLock(t)
  {
    match t
    case Entering => q.(nTotal := q.nTotal + 1)
    case Awake => q.(nIdle := q.nIdle - 1)
    case Busy(batch, _, ok) => Report(q, |batch|, ok)
  }

  function Next(s: State, step: Step): (s': State)
    requires Enabled(s, step)
    ensures |s'.threads| == |s.threads|
  {
    match step
    case Add(checks, w) =>
      s.(q := s.q.(queue := s.q.queue + checks, nTodo := s.q.nTodo + |checks|),
         added := s.added + checks,
         threads := if |checks| > 1 then WakeWorkers(s.threads)
                    else if |checks| == 1 && w > 0 then WakeOne(s.threads, w) else s.threads)
    case Enter(i) => s.(threads := s.threads[i := Entering])
    case Work(i) =>
      var t := s.threads[i];
      s.(threads := s.threads[i := Busy(t.batch, t.done + 1, t.ok && t.batch[t.done].ok)])
    case Spurious(i) => s.(threads := s.threads[i := Awake])
    case Lock(i) => LockStep(s, i)
  }

  /** The threads after the clean-up of thread `i`, which is set aside as `Entering`. */
  function Others(s: State, i: nat): (r: seq<Thread>)
    requires Enabled(s, Lock(i))
    ensures |r| == |s.threads| && r[i] == Entering
  {
    var t := s.threads[i];
    (if t.Busy? && CleanUp(s.q, t).nTodo == 0 && i > 0 then WakeOne(s.threads, 0) else s.threads)[i := Entering]
  }

  function ReportedBy(s: State, i: nat): seq<Check>
    requires i < |s.threads|
  {
    if s.threads[i].Busy? then s.reported + s.threads[i].batch else s.reported
  }

  /** One whole critical section of `Loop`. */
  function LockStep(s: State, i: nat): (s': State)
    requires Enabled(s, Lock(i))
    ensures |s'.threads| == |s.threads|
  {
    var (q, outcome) := Decide(CleanUp(s.q, s.threads[i]), i == 0, s.nBatchSize);
    var threads := Others(s, i);
    match outcome
    case Return(ret) =>
      s.(q := q, threads := threads[i := Out], added := [], reported := [], rounds := s.rounds + [(s.added, ret)])
    case Sleep => s.(q := q, threads := threads[i := Asleep], reported := ReportedBy(s, i))
    case Take(batch) => s.(q := q, threads := threads[i := Busy(batch, 0, q.fAllOk)], reported := ReportedBy(s, i))
  }

  // --------------------------------------------------------------- invariant

  function Sum(threads: seq<Thread>, f: Thread -> nat): nat {
    if threads == [] then 0 else Sum(threads[..|threads| - 1], f) + f(threads[|threads| - 1])
  }

  /** How many checks a thread holds, and how often it holds `c`. */
  function BatchLen(t: Thread): nat { if t.Busy? then |t.batch| else 0 }
  function HeldBy(t: Thread): seq<Check> { if t.Busy? then t.batch else [] }
  function Copies(c: Check): Thread -> nat { (t: Thread) => Count(HeldBy(t), c) }

  /** Threads counted by `nTotal` (inside the loop) and by `nIdle` (waiting on a condition). */
  function Inside(t: Thread): nat { if t.Out? || t.Entering? then 0 else 1 }
  function Waiting(t: Thread): nat { if t.Asleep? || t.Awake? then 1 else 0 }

  predicate SomeBad(s: seq<Check>) { exists c :: c in s && !c.ok }

  predicate ThreadOk(t: Thread, added: seq<Check>) {
    t.Busy? ==>
      && 0 < |t.batch| && t.done <= |t.batch|
      && (t.ok ==> AllOk(t.batch[..t.done]))
      && (!t.ok ==> SomeBad(added))
  }

  /** The counters count; `entered` is 1 while a thread is between clean-up and decision. */
  predicate Counted(q: Shared, threads: seq<Thread>, entered: nat) {
    && q.nTodo == |q.queue| + Sum(threads, BatchLen)
    && q.nTotal == Sum(threads, Inside) + entered
    && q.nIdle == Sum(threads, Waiting)
  }

  /** Every added check is queued, held or reported, as often as it was added. */
  ghost predicate Conserved(queue: seq<Check>, threads: seq<Thread>, added: seq<Check>, reported: seq<Check>) {
    forall c :: Count(added, c) == Count(queue, c) + Sum(threads, Copies(c)) + Count(reported, c)
  }

  ghost predicate Judged(q: Shared, threads: seq<Thread>, added: seq<Check>, reported: seq<Check>) {
    && (forall i :: 0 <= i < |threads| ==> ThreadOk(threads[i], added))
    && (q.fAllOk ==> AllOk(reported))
    && (!q.fAllOk ==> SomeBad(added))
  }

  predicate MasterSafe(q: Shared, threads: seq<Thread>) {
    |threads| > 0 && (threads[0].Asleep? ==> q.queue == [] && q.nTodo > 0)
  }

  ghost predicate Inv(s: State) {
    && Counted(s.q, s.threads, 0)
    && Conserved(s.q.queue, s.threads, s.added, s.reported)
    && Judged(s.q, s.threads, s.added, s.reported)
    && MasterSafe(s.q, s.threads)
    && (forall r :: 0 <= r < |s.rounds| ==> (s.rounds[r].1 <==> AllOk(s.rounds[r].0)))
  }

  function Init(workers: nat, nBatchSize: nat): State {
    State(Shared([], 0, 0, true, 0), seq(workers + 1, _ => Out), nBatchSize, [], [], [])
  }

  lemma {:induction false} SumZero(threads: seq<Thread>, f: Thread -> nat)
    requires forall i :: 0 <= i < |threads| ==> f(threads[i]) == 0
    ensures Sum(threads, f) == 0
  {
    if threads != [] { SumZero(threads[..|threads| - 1], f); }
  }

  /** Changing one thread changes a total by that thread's share. */
  lemma {:induction false} SumSet(threads: seq<Thread>, i: nat, t: Thread, f: Thread -> nat)
    requires i < |threads|
    ensures Sum(threads[i := t], f) + f(threads[i]) == Sum(threads, f) + f(t)
  {
    var n := |threads| - 1;
    var u := threads[i := t];
    if i < n {
      assert u[..n] == threads[..n][i := t];
      SumSet(threads[..n], i, t, f);
    } else {
      assert u[..n] == threads[..n];
    }
  }

  lemma {:induction false} SumAtLeast(threads: seq<Thread>, i: nat, f: Thread -> nat)
    requires i < |threads|
    ensures f(threads[i]) <= Sum(threads, f)
  {
    var n := |threads| - 1;
    if i < n { SumAtLeast(threads[..n], i, f); }
  }

  lemma {:induction false} SumSame(a: seq<Thread>, b: seq<Thread>, f: Thread -> nat)
    requires |a| == |b| && forall i :: 0 <= i < |a| ==> f(a[i]) == f(b[i])
    ensures Sum(a, f) == Sum(b, f)
  {
    if a != [] { SumSame(a[..|a| - 1], b[..|b| - 1], f); }
  }

  predicate Woken(a: seq<Thread>, b: seq<Thread>) {
    |a| == |b| && forall i :: 0 <= i < |a| ==> b[i] == a[i] || (a[i].Asleep? && b[i].Awake?)
  }

  /** Waking threads moves no check and no count. */
  lemma WakingKeeps(q: Shared, a: seq<Thread>, b: seq<Thread>, added: seq<Check>, reported: seq<Check>)
    requires Woken(a, b)
    ensures Counted(q, a, 0) ==> Counted(q, b, 0)
    ensures Conserved(q.queue, a, added, reported) ==> Conserved(q.queue, b, added, reported)
    ensures Judged(q, a, added, reported) ==> Judged(q, b, added, reported)
  {
    SumSame(a, b, BatchLen);
    SumSame(a, b, Inside);
    SumSame(a, b, Waiting);
    forall c ensures Sum(a, Copies(c)) == Sum(b, Copies(c)) { SumSame(a, b, Copies(c)); }
    forall i | 0 <= i < |b| && Judged(q, a, added, reported) ensures ThreadOk(b[i], added) {
      assert ThreadOk(a[i], added);
    }
  }

  lemma SetCounts(threads: seq<Thread>, i: nat, t: Thread)
    requires i < |threads|
    ensures Sum(threads[i := t], BatchLen) == Sum(threads, BatchLen) - BatchLen(threads[i]) + BatchLen(t)
    ensures Sum(threads[i := t], Inside) == Sum(threads, Inside) - Inside(threads[i]) + Inside(t)
    ensures Sum(threads[i := t], Waiting) == Sum(threads, Waiting) - Waiting(threads[i]) + Waiting(t)
  {
    SumSet(threads, i, t, BatchLen);
    SumSet(threads, i, t, Inside);
    SumSet(threads, i, t, Waiting);
  }

  /** Moving checks between the queue, one thread and the reported list conserves them. */
  lemma SetConserves(queue: seq<Check>, threads: seq<Thread>, added: seq<Check>, reported: seq<Check>,
                     queue': seq<Check>, i: nat, t: Thread, reported': seq<Check>)
    requires i < |threads| && Conserved(queue, threads, added, reported)
    requires forall c :: Count(queue, c) + Count(HeldBy(threads[i]), c) + Count(reported, c) ==
                         Count(queue', c) + Count(HeldBy(t), c) + Count(reported', c)
    ensures Conserved(queue', threads[i := t], added, reported')
  {
    forall c ensures Count(added, c) == Count(queue', c) + Sum(threads[i := t], Copies(c)) + Count(reported', c) {
      SumSet(threads, i, t, Copies(c));
    }
  }

  lemma InitInv(workers: nat, nBatchSize: nat)
    ensures Inv(Init(workers, nBatchSize))
  {
    var threads := Init(workers, nBatchSize).threads;
    SumZero(threads, BatchLen);
    SumZero(threads, Inside);
    SumZero(threads, Waiting);
    forall c ensures Sum(threads, Copies(c)) == 0 { SumZero(threads, Copies(c)); }
  }

  lemma AddJudged(s: State, checks: seq<Check>)
    requires Judged(s.q, s.threads, s.added, s.reported)
    ensures Judged(s.q, s.threads, s.added + checks, s.reported)
  {
    if SomeBad(s.added) {
      var c :| c in s.added && !c.ok;
      assert c in s.added + checks;
    }
    forall i | 0 <= i < |s.threads| ensures ThreadOk(s.threads[i], s.added + checks) {
      assert ThreadOk(s.threads[i], s.added);
    }
  }

  lemma AddKeeps(s: State, checks: seq<Check>, w: nat)
    requires Inv(s) && Enabled(s, Add(checks, w))
    ensures Inv(Next(s, Add(checks, w)))
  {
    var t := Next(s, Add(checks, w));
    AddJudged(s, checks);
    var q := s.q.(queue := s.q.queue + checks, nTodo := s.q.nTodo + |checks|);
    assert Counted(q, s.threads, 0) && Judged(q, s.threads, s.added + checks, s.reported);
    forall c ensures Count(s.added + checks, c) ==
      Count(q.queue, c) + Sum(s.threads, Copies(c)) + Count(s.reported, c) {
      CountConcat(s.added, checks, c);
      CountConcat(s.q.queue, checks, c);
    }
    WakingKeeps(q, s.threads, t.threads, s.added + checks, s.reported);
    assert t == s.(q := q, added := s.added + checks, threads := t.threads);
  }

  lemma EnterKeeps(s: State, i: nat, t: Thread)
    requires Inv(s) && i < |s.threads|
    requires (s.threads[i].Out? && t.Entering?) || (s.threads[i].Asleep? && t.Awake?)
    ensures Inv(s.(threads := s.threads[i := t]))
  {
    SetCounts(s.threads, i, t);
    SetConserves(s.q.queue, s.threads, s.added, s.reported, s.q.queue, i, t, s.reported);
  }

  /** A held check was added. */
  lemma HeldWasAdded(s: State, i: nat, c: Check)
    requires Inv(s) && i < |s.threads| && s.threads[i].Busy? && c in s.threads[i].batch
    ensures c in s.added
  {
    SumAtLeast(s.threads, i, Copies(c));
    CountIn(s.threads[i].batch, c);
    CountIn(s.added, c);
  }

  /** Evaluating one more check of a batch keeps the verdict of the batch honest. */
  lemma WorkJudged(s: State, i: nat, t: Thread)
    requires Inv(s) && Enabled(s, Work(i))
    requires var b := s.threads[i]; t == Busy(b.batch, b.done + 1, b.ok && b.batch[b.done].ok)
    ensures ThreadOk(t, s.added)
  {
    var b := s.threads[i];
    var c := b.batch[b.done];
    HeldWasAdded(s, i, c);
    assert ThreadOk(b, s.added);
    assert b.batch[..b.done + 1] == b.batch[..b.done] + [c];
  }

  lemma WorkKeeps(s: State, i: nat)
    requires Inv(s) && Enabled(s, Work(i))
    ensures Inv(Next(s, Work(i)))
  {
    var b := s.threads[i];
    var t := Busy(b.batch, b.done + 1, b.ok && b.batch[b.done].ok);
    SetCounts(s.threads, i, t);
    SetConserves(s.q.queue, s.threads, s.added, s.reported, s.q.queue, i, t, s.reported);
    WorkJudged(s, i, t);
    assert Next(s, Work(i)) == s.(threads := s.threads[i := t]);
  }

  ghost predicate Between(s: State, q: Shared, others: seq<Thread>, i: nat, reported: seq<Check>) {
    && i < |others| && others[i].Entering?
    && Counted(q, others, 1)
    && Conserved(q.queue, others, s.added, reported)
    && Judged(q, others, s.added, reported)
    && MasterSafe(q, others)
  }

  lemma CleanUpJudged(s: State, i: nat)
    requires Inv(s) && Enabled(s, Lock(i))
    ensures Judged(CleanUp(s.q, s.threads[i]), Others(s, i), s.added, ReportedBy(s, i))
  {
    var t := s.threads[i];
    assert ThreadOk(t, s.added);
    if t.Busy? { assert t.batch[..t.done] == t.batch; }
    forall j | 0 <= j < |s.threads| ensures ThreadOk(Others(s, i)[j], s.added) {
      assert ThreadOk(s.threads[j], s.added);
    }
  }

  lemma CleanUpKeeps(s: State, i: nat)
    requires Inv(s) && Enabled(s, Lock(i))
    ensures Between(s, CleanUp(s.q, s.threads[i]), Others(s, i), i, ReportedBy(s, i))
  {
    var t := s.threads[i];
    var q := CleanUp(s.q, t);
    CleanUpJudged(s, i);
    var threads := if t.Busy? && q.nTodo == 0 && i > 0 then WakeOne(s.threads, 0) else s.threads;
    WakingKeeps(s.q, s.threads, threads, s.added, s.reported);
    SetCounts(threads, i, Entering);
    forall c ensures Count(HeldBy(threads[i]), c) + Count(s.reported, c) == Count(ReportedBy(s, i), c) {
      if t.Busy? { CountConcat(s.reported, t.batch, c); }
    }
    SetConserves(s.q.queue, threads, s.added, s.reported, q.queue, i, Entering, ReportedBy(s, i));
    SumAtLeast(Others(s, i), i, BatchLen);
  }

  /** A batch comes off the end of the queue and nothing is lost on the way. */
  lemma TakeSplits(q: Shared, master: bool, nBatchSize: nat)
    requires q.nTotal + q.nIdle + 1 > 0 && q.queue != []
    ensures var (q2, outcome) := Decide(q, master, nBatchSize);
      && outcome.Take? && q2 == q.(queue := q2.queue)
      && 0 < |outcome.batch| && |q2.queue| + |outcome.batch| == |q.queue|
      && forall c :: Count(q.queue, c) == Count(q2.queue, c) + Count(outcome.batch, c)
  {
    var rest := |q.queue| - BatchCount(q, nBatchSize);
    assert q.queue == q.queue[..rest] + q.queue[rest..];
    forall c ensures Count(q.queue, c) == Count(q.queue[..rest], c) + Count(Reversed(q.queue[rest..]), c) {
      CountReversed(q.queue[rest..], c);
      CountConcat(q.queue[..rest], q.queue[rest..], c);
    }
  }

  lemma TakeKeeps(
      s: State, q: Shared, others: seq<Thread>, i: nat, reported: seq<Check>, queue: seq<Check>, batch: seq<Check>)
    requires Inv(s) && Between(s, q, others, i, reported) && q.queue != []
    requires 0 < |batch| && |queue| + |batch| == |q.queue|
    requires forall c :: Count(q.queue, c) == Count(queue, c) + Count(batch, c)
    ensures Inv(s.(q := q.(queue := queue), threads := others[i := Busy(batch, 0, q.fAllOk)], reported := reported))
  {
    var t := Busy(batch, 0, q.fAllOk);
    SetCounts(others, i, t);
    SetConserves(q.queue, others, s.added, reported, queue, i, t, reported);
    assert ThreadOk(t, s.added);
  }

  lemma SleepKeeps(s: State, q: Shared, others: seq<Thread>, i: nat, reported: seq<Check>)
    requires Inv(s) && Between(s, q, others, i, reported) && q.queue == [] && !(i == 0 && q.nTodo == 0)
    ensures Inv(s.(q := q.(nIdle := q.nIdle + 1), threads := others[i := Asleep], reported := reported))
  {
    SetCounts(others, i, Asleep);
    SetConserves(q.queue, others, s.added, reported, q.queue, i, Asleep, reported);
    SumAtLeast(others, i, BatchLen);
    assert q.nTodo >= 0;
  }

  /** When the master returns nothing is held, so its answer is the conjunction of the round. */
  lemma ReturnKeeps(s: State, q: Shared, others: seq<Thread>, reported: seq<Check>)
    requires Inv(s) && Between(s, q, others, 0, reported) && q.queue == [] && q.nTodo == 0
    ensures q.fAllOk <==> AllOk(s.added)
    ensures Inv(s.(q := q.(nTotal := q.nTotal - 1, fAllOk := true), threads := others[0 := Out], added := [],
                   reported := [], rounds := s.rounds + [(s.added, q.fAllOk)]))
  {
    SetCounts(others, 0, Out);
    forall j | 0 <= j < |others| ensures !others[j].Busy? {
      SumAtLeast(others, j, BatchLen);
      assert ThreadOk(others[j], s.added);
    }
    forall c
      ensures Count(s.added, c) == Count(reported, c)
      ensures Sum(others[0 := Out], Copies(c)) == 0
    {
      SumZero(others, Copies(c));
      SumZero(others[0 := Out], Copies(c));
    }
    if q.fAllOk {
      forall j | 0 <= j < |s.added| ensures s.added[j].ok {
        CountIn(s.added, s.added[j]);
        CountIn(reported, s.added[j]);
      }
    }
  }

  lemma LockKeeps(s: State, i: nat)
    requires Inv(s) && Enabled(s, Lock(i))
    ensures Inv(LockStep(s, i))
  {
    CleanUpKeeps(s, i);
    var q := CleanUp(s.q, s.threads[i]);
    var o := Others(s, i);
    if q.queue != [] {
      TakeSplits(q, i == 0, s.nBatchSize);
      var (q2, outcome) := Decide(q, i == 0, s.nBatchSize);
      TakeKeeps(s, q, o, i, ReportedBy(s, i), q2.queue, outcome.batch);
      assert LockStep(s, i) == s.(q := q.(queue := q2.queue), threads := o[i := Busy(outcome.batch, 0, q.fAllOk)],
        reported := ReportedBy(s, i));
    } else if i == 0 && q.nTodo == 0 {
      ReturnKeeps(s, q, o, ReportedBy(s, i));
      assert LockStep(s, i) == s.(q := q.(nTotal := q.nTotal - 1, fAllOk := true), threads := o[0 := Out], added := [],
                   reported := [], rounds := s.rounds + [(s.added, q.fAllOk)]);
    } else {
      SleepKeeps(s, q, o, i, ReportedBy(s, i));
      assert LockStep(s, i) == s.(q := q.(nIdle := q.nIdle + 1), threads := o[i := Asleep],
        reported := ReportedBy(s, i));
    }
  }

  /** Every step of every thread keeps the invariant. */
  lemma StepKeeps(s: State, step: Step)
    requires Inv(s) && Enabled(s, step)
    ensures Inv(Next(s, step))
  {
    match step
    case Add(checks, w) => AddKeeps(s, checks, w);
    case Enter(i) => EnterKeeps(s, i, Entering);
    case Work(i) => WorkKeeps(s, i);
    case Lock(i) => LockKeeps(s, i);
    case Spurious(i) => EnterKeeps(s, i, Awake);
  }

  ghost predicate IsRun(s: State, steps: seq<Step>, t: State)
    decreases |steps|
  {
    if steps == [] then s == t
    else Enabled(s, steps[0]) && IsRun(Next(s, steps[0]), steps[1..], t)
  }

  lemma {:induction false} RunKeeps(s: State, steps: seq<Step>, t: State)
    requires Inv(s) && IsRun(s, steps, t)
    ensures Inv(t)
    decreases |steps|
  {
    if steps != [] {
      StepKeeps(s, steps[0]);
      RunKeeps(Next(s, steps[0]), steps[1..], t);
    }
  }

  /** For every interleaving from the start: `nTodo` counts exactly the unfinished checks, every
      added check is queued, held once or reported once, each finished `Wait` returned the
      conjunction of what its round had added, and a sleeping master has someone working for it. */
  lemma EveryInterleaving(workers: nat, nBatchSize: nat, steps: seq<Step>, s: State)
    requires IsRun(Init(workers, nBatchSize), steps, s)
    ensures s.q.nTodo == |s.q.queue| + Sum(s.threads, BatchLen)
    ensures Conserved(s.q.queue, s.threads, s.added, s.reported)
    ensures forall r :: 0 <= r < |s.rounds| ==> (s.rounds[r].1 <==> AllOk(s.rounds[r].0))
    ensures s.threads != [] && (s.threads[0].Asleep? ==> SomeoneHolds(s))
  {
    InitInv(workers, nBatchSize);
    RunKeeps(Init(workers, nBatchSize), steps, s);
    if s.threads[0].Asleep? { FindHolder(s); }
  }

  // ---------------------------------------------------------------- progress

  predicate SomeoneHolds(s: State) {
    exists i :: 0 <= i < |s.threads| && s.threads[i].Busy?
  }

  lemma FindHolder(s: State)
    requires Inv(s) && s.threads[0].Asleep?
    ensures SomeoneHolds(s)
  {
    if !SomeoneHolds(s) { SumZero(s.threads, BatchLen); }
  }

  /** Steps that are neither spurious wake-ups nor the arrival of new work or threads. */
  predicate IsProgress(step: Step) { step.Work? || step.Lock? }

  /** A thread that wants the lock can always run its critical section. */
  lemma LockEnabled(s: State, i: nat)
    requires Inv(s) && i < |s.threads| && CanLock(s.threads[i])
    ensures Enabled(s, Lock(i))
  {
    SumAtLeast(s.threads, i, Waiting);
  }

  /** No stuck state: while the master is inside `Wait`, some thread can move on its own. */
  lemma NeverStuck(s: State)
    requires Inv(s) && !s.threads[0].Out?
    ensures exists step :: IsProgress(step) && Enabled(s, step)
  {
    var i: nat := 0;
    if s.threads[0].Asleep? {
      FindHolder(s);
      i :| 0 <= i < |s.threads| && s.threads[i].Busy?;
    }
    assert ThreadOk(s.threads[i], s.added);
    if CanLock(s.threads[i]) {
      LockEnabled(s, i);
      assert IsProgress(Lock(i));
    } else {
      assert IsProgress(Work(i)) && Enabled(s, Work(i));
    }
  }

  function RankOf(t: Thread): nat {
    match t
    case Out => 0
    case Asleep => 0
    case Entering => 1
    case Awake => 1
    case Busy(batch, done, _) => 2 + (if done <= |batch| then |batch| - done else 0)
  }

  /** The work left in the system. */
  function Measure(s: State): nat { 3 * |s.q.queue| + Sum(s.threads, RankOf) }

  /** Every progress step uses up work. */
  lemma ProgressDecreases(s: State, step: Step)
    requires Inv(s) && IsProgress(step) && Enabled(s, step)
    ensures Measure(Next(s, step)) < Measure(s)
  {
    var i := step.i;
    var t := Next(s, step);
    assert ThreadOk(s.threads[i], s.added);
    if step.Work? {
      SumSet(s.threads, i, t.threads[i], RankOf);
    } else {
      CleanUpKeeps(s, i);
      var o := Others(s, i);
      OthersRank(s, i);
      SumSet(o, i, t.threads[i], RankOf);
    }
  }

  lemma OthersRank(s: State, i: nat)
    requires Inv(s) && Enabled(s, Lock(i))
    ensures Sum(Others(s, i), RankOf) <=
              Sum(s.threads, RankOf) - RankOf(s.threads[i]) + 1 +
              (if s.threads[i].Busy? && CleanUp(s.q, s.threads[i]).nTodo == 0 then 1 else 0)
    ensures s.threads[i].Busy? && CleanUp(s.q, s.threads[i]).nTodo == 0 ==> s.q.queue == []
  {
    var t := s.threads[i];
    var q := CleanUp(s.q, t);
    var threads := if t.Busy? && q.nTodo == 0 && i > 0 then WakeOne(s.threads, 0) else s.threads;
    SumSet(s.threads, 0, Awake, RankOf);
    SumSet(threads, i, Entering, RankOf);
    CleanUpKeeps(s, i);
    assert threads[i] == t;
  }

  /** A progress step ends a round exactly when it takes the master out of `Wait`. */
  lemma ProgressRounds(s: State, step: Step)
    requires Inv(s) && IsProgress(step) && Enabled(s, step)
    ensures var t := Next(s, step);
      && t.threads != [] && (s.threads[0].Out? ==> t.threads[0].Out?)
      && |t.rounds| == |s.rounds| + if t.threads[0].Out? && !s.threads[0].Out? then 1 else 0
  {}

  lemma {:induction false} ProgressRun(s: State, steps: seq<Step>, t: State)
    requires Inv(s) && IsRun(s, steps, t)
    requires forall k :: 0 <= k < |steps| ==> IsProgress(steps[k])
    ensures Inv(t) && |steps| + Measure(t) <= Measure(s)
    ensures s.threads[0].Out? ==> t.threads[0].Out?
    ensures |t.rounds| == |s.rounds| + if t.threads[0].Out? && !s.threads[0].Out? then 1 else 0
    decreases |steps|
  {
    if steps != [] {
      StepKeeps(s, steps[0]);
      ProgressDecreases(s, steps[0]);
      ProgressRounds(s, steps[0]);
      ProgressRun(Next(s, steps[0]), steps[1..], t);
    }
  }

  ghost predicate Quiescent(s: State) { forall step :: IsProgress(step) ==> !Enabled(s, step) }

  /** However the threads are scheduled, the progress steps are bounded by the work at hand, and
      when none is left the master has returned from `Wait`, with the conjunction of its round. */
  lemma WaitReturns(s: State, steps: seq<Step>, t: State)
    requires Inv(s) && IsRun(s, steps, t) && !s.threads[0].Out?
    requires forall k :: 0 <= k < |steps| ==> IsProgress(steps[k])
    ensures |steps| <= Measure(s)
    ensures Quiescent(t) ==> |t.rounds| == |s.rounds| + 1 && (t.rounds[|s.rounds|].1 <==> AllOk(t.rounds[|s.rounds|].0))
  {
    ProgressRun(s, steps, t);
    if Quiescent(t) && !t.threads[0].Out? { NeverStuck(t); }
  }

  // ------------------------------------------------------- the mutable queue

  lemma TakeOne(q: seq<Check>, k: nat)
    requires k < |q|
    ensures q[..|q| - k][..|q| - k - 1] == q[..|q| - k - 1]
    ensures Reversed(q[|q| - k - 1..]) == Reversed(q[|q| - k..]) + [q[|q| - k - 1]]
  {}

  class Queue {
    var queue: seq<Check>
    var nIdle: int
    var nTotal: int
    var fAllOk: bool
    var nTodo: int
    const nBatchSize: nat

    ghost function State(): Shared reads this { Shared(queue, nIdle, nTotal, fAllOk, nTodo) }

    constructor (nBatchSizeIn: nat)
      ensures State() == Shared([], 0, 0, true, 0) && nBatchSize == nBatchSizeIn
    {
      queue, nIdle, nTotal, fAllOk, nTodo, nBatchSize := [], 0, 0, true, 0, nBatchSizeIn;
    }

    /** `CCheckQueue::Add` inside the lock; the result says which notification is sent. */
    method AddChecks(checks: seq<Check>) returns (notifyOne: bool, notifyAll: bool)
      modifies this
      ensures State() == old(State()).(queue := old(queue) + checks, nTodo := old(nTodo) + |checks|)
      ensures notifyOne == (|checks| == 1) && notifyAll == (|checks| > 1)
    {
      for k := 0 to |checks|
        invariant State() == old(State()).(queue := old(queue) + checks[..k])
      {
        queue := queue + [checks[k]];
      }
      assert checks[..|checks|] == checks;
      nTodo := nTodo + |checks|;
      notifyOne, notifyAll := |checks| == 1, |checks| > 1;
    }

    /** The part of the critical section after the clean-up: return, sleep, or take a batch. */
    method DecideOrTake(master: bool) returns (outcome: Outcome)
      requires nTotal + nIdle + 1 > 0
      modifies this
      ensures (State(), outcome) == Decide(old(State()), master, nBatchSize)
    {
      if queue == [] {
        if master && nTodo == 0 {
          nTotal := nTotal - 1;
          outcome := Return(fAllOk);
          fAllOk := true;
        } else {
          nIdle := nIdle + 1;
          outcome := Sleep;
        }
        return;
      }
      var nNow := Max(1, Min(nBatchSize, |queue| / (nTotal + nIdle + 1)));
      BatchCountIsShare(Shared(queue, nIdle, nTotal, fAllOk, nTodo), nBatchSize);
      var batch := [];
      for k := 0 to nNow
        invariant State() == old(State()).(queue := old(queue)[..|old(queue)| - k])
        invariant batch == Reversed(old(queue)[|old(queue)| - k..])
      {
        TakeOne(old(queue), k);
        batch := batch + [queue[|queue| - 1]];
        queue := queue[..|queue| - 1];
      }
      outcome := Take(batch);
    }

    /** Evaluation of a batch outside the lock: stops calling checks after the first failure. */
    method Execute(batch: seq<Check>, start: bool) returns (ok: bool)
      ensures ok <==> start && AllOk(batch)
    {
      ok := start;
      for k := 0 to |batch|
        invariant ok <==> start && AllOk(batch[..k])
      {
        if ok { ok := batch[k].ok; }
        assert batch[..k + 1] == batch[..k] + [batch[k]];
      }
      assert batch[..|batch|] == batch;
    }
  }
}
