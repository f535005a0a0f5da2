/** The guarantees of the mutex protocol, over every run of any number of connections. */
module BtreeMutexTheorems {
  import opened BtreeMutexModel
  import opened BtreeMutexSafety

  // ---------- Ownership ----------

  /** Connection code is between a mutex operation on Btree r and the assignment to r.locked. */
  predicate InGap(t: Thread, r: nat) {
    match t.pc
    case DropMark(p, q) => r == q
    case Claim(p, q, fast) => r == q
    case Mark(p, q, fast) => r == q
    case LeaveMark(p) => r == p
    case _ => false
  }

  /** In every reachable state `locked` tells the truth about the mutex, a locked Btree has its
      BtShared.db set and is wanted (until the outermost Leave has begun to unlock it), and
      outside calls the mutex is held exactly while wantToLock is positive. */
  lemma LockedIsOwned(cfg: seq<Conn>, run: seq<State>, who: seq<nat>, n: nat, c: nat, r: nat)
    requires ValidConfig(cfg) && IsRun(cfg, run, who) && StartsInitial(cfg, run) && n < |run|
    requires c < |cfg| && r < |cfg[c].list|
    ensures var s, t := run[n], run[n].threads[c];
            && (!InGap(t, r) ==> (t.locked[r] <==> Holds(cfg, s, c, r)))
            && (InGap(t, r) ==> (t.locked[r] <==> !Holds(cfg, s, c, r)))
            && (t.locked[r] && !InGap(t, r) ==> DbIs(cfg[c], s, c, r))
            && (t.locked[r] && t.pc != LeaveUnlock(r) && t.pc != LeaveMark(r) ==> t.want[r] > 0)
            && (t.pc.Client? || t.pc.Walk? ==> (Holds(cfg, s, c, r) <==> t.want[r] > 0))
  {
    RunInv(cfg, run, who, n);
    var t := run[n].threads[c];
    assert ThreadInv(cfg[c], t);
    assert Holds(cfg, run[n], c, r) <==> Owns(t, r);
    assert OwnsWithDb(t, r) ==> DbIs(cfg[c], run[n], c, r);
    LockedIsWanted(cfg[c], t, r);
  }

  lemma LockedIsWanted(k: Conn, t: Thread, r: nat)
    requires ThreadInv(k, t) && r < |k.list|
    ensures t.locked[r] && t.pc != LeaveUnlock(r) && t.pc != LeaveMark(r) ==> t.want[r] > 0
    ensures InGap(t, r) ==> (t.locked[r] <==> !Owns(t, r))
  {
  }

  /** Two connections are never both inside the recursive mutex of one BtShared. */
  lemma MutualExclusion(cfg: seq<Conn>, run: seq<State>, who: seq<nat>, n: nat, c: nat, r: nat, d: nat, u: nat)
    requires ValidConfig(cfg) && IsRun(cfg, run, who) && StartsInitial(cfg, run) && n < |run|
    requires c < |cfg| && r < |cfg[c].list| && d < |cfg| && u < |cfg[d].list| && c != d
    requires cfg[c].list[r] == cfg[d].list[u]
    requires run[n].threads[c].pc.Client? && run[n].threads[d].pc.Client?
    ensures run[n].threads[c].want[r] == 0 || run[n].threads[d].want[u] == 0
  {
    LockedIsOwned(cfg, run, who, n, c, r);
    LockedIsOwned(cfg, run, who, n, d, u);
  }

  /** No assert of btmutex.c fails in any run. */
  lemma NoAssertFails(cfg: seq<Conn>, run: seq<State>, who: seq<nat>, n: nat, c: nat)
    requires ValidConfig(cfg) && IsRun(cfg, run, who) && StartsInitial(cfg, run) && n < |run| && c < |cfg|
    ensures AssertsHold(cfg, run[n], c)
  {
    RunInv(cfg, run, who, n);
    var k, s, t := cfg[c], run[n], run[n].threads[c];
    assert ThreadInv(k, t);
    forall r | 0 <= r < |k.list|
      ensures Holds(cfg, s, c, r) <==> Owns(t, r)
      ensures OwnsWithDb(t, r) ==> DbIs(k, s, c, r)
    {}
    match t.pc
    case EnterTop(p) => assert OwnsWithDb(t, p) <==> t.locked[p];
    case Drop(p, q) => if q < |k.list| { assert OwnsWithDb(t, q) <==> t.locked[q]; }
    case LeaveUnlock(p) => assert OwnsWithDb(t, p) <==> t.locked[p];
    case Wait(p, q) => assert Owns(t, q) <==> t.locked[q];
    case _ =>
  }

  // ---------- The back-off ----------

  /** A connection that is about to wait holds only mutexes of smaller address. */
  lemma WaitsAboveHeld(cfg: seq<Conn>, s: State, c: nat, a: nat)
    requires ValidConfig(cfg) && Inv(cfg, s) && c < |cfg| && s.threads[c].pc.Wait?
    requires a in s.owner && s.owner[a] == c
    ensures a < Target(cfg[c], s.threads[c])
  {
    var k, t := cfg[c], s.threads[c];
    var r :| 0 <= r < |k.list| && k.list[r] == a;
    assert Holds(cfg, s, c, r) <==> Owns(t, r);
    assert ThreadInv(k, t);
  }

  lemma BackOff(cfg: seq<Conn>, run: seq<State>, who: seq<nat>, n: nat, c: nat, a: nat)
    requires ValidConfig(cfg) && IsRun(cfg, run, who) && StartsInitial(cfg, run) && n < |run| && c < |cfg|
    requires run[n].threads[c].pc.Wait? && a in run[n].owner && run[n].owner[a] == c
    ensures a < Target(cfg[c], run[n].threads[c])
  {
    RunInv(cfg, run, who, n);
    WaitsAboveHeld(cfg, run[n], c, a);
  }

  /** One step, of whichever connection, takes nothing from c that lies below the Btree it enters. */
  lemma StepKeepsSmaller(cfg: seq<Conn>, run: seq<State>, who: seq<nat>, n: nat, c: nat, p: nat, r: nat)
    requires ValidConfig(cfg) && IsRun(cfg, run, who) && StartsInitial(cfg, run) && n < |who|
    requires c < |cfg| && r < p < |cfg[c].list| && InEnter(run[n].threads[c], p) && Holds(cfg, run[n], c, r)
    ensures Holds(cfg, run[n + 1], c, r)
  {
    RunInv(cfg, run, who, n);
    assert StepAt(cfg, run, who, n);
    var s, w := run[n], who[n];
    if s.threads[w].pc != Client {
      var won :| MayWin(cfg, s, w, won) && run[n + 1] == Internal(cfg, s, w, won);
      InternalKeepsSmaller(cfg, s, w, won, c, p, r);
    }
  }

  lemma InternalKeepsSmaller(cfg: seq<Conn>, s: State, w: nat, won: bool, c: nat, p: nat, r: nat)
    requires ValidConfig(cfg) && Inv(cfg, s) && w < |cfg| && s.threads[w].pc != Client && MayWin(cfg, s, w, won)
    requires c < |cfg| && r < p < |cfg[c].list| && InEnter(s.threads[c], p) && Holds(cfg, s, c, r)
    ensures Holds(cfg, Internal(cfg, s, w, won), c, r)
  {
    EffectAllowed(cfg, s, w, won);
    ApplyOwnership(cfg, s, w, StepEffect(cfg[w], s.threads[w], won), c, r);
  }

  /** As long as sqlite3BtreeEnter(p) is in progress, every smaller mutex that was held at its
      start stays held in each single state. */
  lemma {:induction false} EnterKeepsSmaller(
    cfg: seq<Conn>, run: seq<State>, who: seq<nat>, m: nat, n: nat, c: nat, p: nat, r: nat)
    requires ValidConfig(cfg) && IsRun(cfg, run, who) && StartsInitial(cfg, run) && m <= n < |run|
    requires c < |cfg| && r < p < |cfg[c].list|
    requires forall j | m <= j < n :: InEnter(run[j].threads[c], p)
    requires Holds(cfg, run[m], c, r)
    ensures Holds(cfg, run[n], c, r)
  {
    if m < n {
      EnterKeepsSmaller(cfg, run, who, m, n - 1, c, p, r);
      StepKeepsSmaller(cfg, run, who, n - 1, c, p, r);
    }
  }

  // ---------- Whole calls under interference ----------

  /** From state m to state n connection c performs exactly the job that it began at step m. */
  ghost predicate Performs(cfg: seq<Conn>, run: seq<State>, who: seq<nat>, m: nat, n: nat, c: nat, job: Job) {
    && IsRun(cfg, run, who) && StartsInitial(cfg, run)
    && m + 1 < n < |run| && c < |cfg| && who[m] == c
    && run[m].threads[c].pc == Client
    && MayBegin(cfg[c], run[m].threads[c], job)
    && run[m + 1] == Begin(run[m], c, job)
    && (forall j | m < j < n :: run[j].threads[c].pc != Client)
    && run[n].threads[c].pc == Client
  }

  /** A step of w changes no other thread, and in the middle of a job not what the job is about. */
  lemma StepFrame(cfg: seq<Conn>, s: State, s': State, w: nat, c: nat)
    requires Shaped(cfg, s) && Step(cfg, s, s', w) && c < |cfg|
    ensures Shaped(cfg, s') ==> (c != w ==> s'.threads[c] == s.threads[c])
    ensures Shaped(cfg, s') && s.threads[c].pc != Client ==>
              var t, t' := s.threads[c], s'.threads[c];
              t'.base == t.base && t'.job.slots == t.job.slots && t'.job.entering == t.job.entering
  {
    if s.threads[w].pc != Client {
      var won :| MayWin(cfg, s, w, won) && s' == Internal(cfg, s, w, won);
      AdvanceKeepsJob(cfg[w], s.threads[w], won);
    }
  }

  /** What the job of thread t is about. */
  ghost predicate About(t: Thread, base: seq<nat>, slots: seq<Slot>, entering: bool) {
    t.base == base && t.job.slots == slots && t.job.entering == entering
  }

  lemma JobStaysOnce(cfg: seq<Conn>, run: seq<State>, who: seq<nat>, c: nat, j: nat,
                     base: seq<nat>, slots: seq<Slot>, entering: bool)
    requires IsRun(cfg, run, who) && j + 1 < |run| && c < |cfg|
    requires run[j].threads[c].pc != Client && About(run[j].threads[c], base, slots, entering)
    ensures About(run[j + 1].threads[c], base, slots, entering)
  {
    assert StepAt(cfg, run, who, j);
    StepFrame(cfg, run[j], run[j + 1], who[j], c);
  }

  /** What the running job is about does not change while it runs. */
  lemma {:induction false} JobStays(
    cfg: seq<Conn>, run: seq<State>, who: seq<nat>, m: nat, n: nat, c: nat, job: Job, j: nat)
    requires Performs(cfg, run, who, m, n, c, job) && m < j <= n
    ensures About(run[j].threads[c], run[m].threads[c].want, job.slots, job.entering)
  {
    if j > m + 1 {
      JobStays(cfg, run, who, m, n, c, job, j - 1);
      JobStaysOnce(cfg, run, who, c, j - 1, run[m].threads[c].want, job.slots, job.entering);
    }
  }

  /** sqlite3BtreeEnter and sqlite3BtreeEnterAll, whatever the other connections do meanwhile: on
      return every named Btree is held, all at once, and each wantToLock has risen by exactly the
      number of times the Btree was named. */
  lemma EnterAllHolds(cfg: seq<Conn>, run: seq<State>, who: seq<nat>, m: nat, n: nat, c: nat, job: Job)
    requires ValidConfig(cfg) && Performs(cfg, run, who, m, n, c, job) && job.entering
    ensures HoldsAll(cfg, run[n], c, job.slots)
    ensures forall r | 0 <= r < |cfg[c].list| ::
              run[n].threads[c].want[r] == run[m].threads[c].want[r] + Tally(job.slots, r, |job.slots|)
    ensures forall r | 0 <= r < |cfg[c].list| && Holds(cfg, run[m], c, r) :: Holds(cfg, run[n], c, r)
  {
    JobStays(cfg, run, who, m, n, c, job, n);
    RunInv(cfg, run, who, n);
    RunInv(cfg, run, who, m);
    var t := run[n].threads[c];
    assert ThreadInv(cfg[c], t);
    forall r | 0 <= r < |cfg[c].list|
      ensures t.want[r] == run[m].threads[c].want[r] + Tally(job.slots, r, |job.slots|)
      ensures Holds(cfg, run[n], c, r) <==> t.want[r] > 0
      ensures Holds(cfg, run[m], c, r) ==> run[m].threads[c].want[r] > 0
    {
      LockedIsOwned(cfg, run, who, n, c, r);
      LockedIsOwned(cfg, run, who, m, c, r);
    }
    forall i | 0 <= i < |job.slots| && job.slots[i].Sharable?
      ensures t.want[job.slots[i].idx] > 0 && Holds(cfg, run[n], c, job.slots[i].idx)
    {
      TallyCounts(job.slots, i);
    }
  }

  /** sqlite3BtreeLeave and sqlite3BtreeLeaveAll: each wantToLock falls by exactly the number of
      times the Btree was named, and exactly those that reach zero are given up. */
  lemma LeaveAllReleases(cfg: seq<Conn>, run: seq<State>, who: seq<nat>, m: nat, n: nat, c: nat, job: Job, r: nat)
    requires ValidConfig(cfg) && Performs(cfg, run, who, m, n, c, job) && !job.entering && r < |cfg[c].list|
    ensures run[n].threads[c].want[r] == run[m].threads[c].want[r] - Tally(job.slots, r, |job.slots|)
    ensures Holds(cfg, run[n], c, r) <==> run[m].threads[c].want[r] > Tally(job.slots, r, |job.slots|)
  {
    JobStays(cfg, run, who, m, n, c, job, n);
    RunInv(cfg, run, who, n);
    assert ThreadInv(cfg[c], run[n].threads[c]);
    LockedIsOwned(cfg, run, who, n, c, r);
  }

  /** While connection c stays in client code, nothing changes for it. */
  lemma {:induction false} ClientUndisturbed(
    cfg: seq<Conn>, run: seq<State>, who: seq<nat>, m: nat, n: nat, c: nat)
    requires IsRun(cfg, run, who) && m <= n < |run| && c < |cfg|
    requires forall j | m <= j < n :: who[j] != c
    ensures run[n].threads[c] == run[m].threads[c]
  {
    if m < n {
      ClientUndisturbed(cfg, run, who, m, n - 1, c);
      assert StepAt(cfg, run, who, n - 1);
      StepFrame(cfg, run[n - 1], run[n], who[n - 1], c);
    }
  }

  /** LeaveAll undoes EnterAll: all counters are back, and each mutex is held iff it was before. */
  lemma LeaveUndoesEnter(
    cfg: seq<Conn>, run: seq<State>, who: seq<nat>, m: nat, n: nat, m': nat, n': nat, c: nat, slots: seq<Slot>)
    requires ValidConfig(cfg) && n <= m'
    requires Performs(cfg, run, who, m, n, c, Job(true, slots, 0))
    requires Performs(cfg, run, who, m', n', c, Job(false, slots, 0))
    requires forall j | n <= j < m' :: who[j] != c
    ensures run[n'].threads[c].want == run[m].threads[c].want
    ensures forall r | 0 <= r < |cfg[c].list| :: Holds(cfg, run[n'], c, r) <==> Holds(cfg, run[m], c, r)
  {
    EnterAllHolds(cfg, run, who, m, n, c, Job(true, slots, 0));
    ClientUndisturbed(cfg, run, who, n, m', c);
    forall r | 0 <= r < |cfg[c].list|
      ensures run[n'].threads[c].want[r] == run[m].threads[c].want[r]
      ensures Holds(cfg, run[n'], c, r) <==> Holds(cfg, run[m], c, r)
    {
      LeaveAllReleases(cfg, run, who, m', n', c, Job(false, slots, 0), r);
      LockedIsOwned(cfg, run, who, m, c, r);
    }
  }

  // ---------- Deadlock freedom ----------

  /** c is blocked on a mutex that d holds. */
  predicate WaitsFor(cfg: seq<Conn>, s: State, c: nat, d: nat)
    requires Shaped(cfg, s)
  {
    Blocked(cfg, s, c) && s.owner[Target(cfg[c], s.threads[c])] == d
  }

  /** A path in the wait-for graph. */
  predicate WaitPath(cfg: seq<Conn>, s: State, path: seq<nat>)
    requires Shaped(cfg, s)
  {
    path != [] && forall j | 0 <= j < |path| - 1 :: LinkAt(cfg, s, path, j)
  }

  predicate LinkAt(cfg: seq<Conn>, s: State, path: seq<nat>, j: nat)
    requires Shaped(cfg, s) && j + 1 < |path|
  {
    WaitsFor(cfg, s, path[j], path[j + 1])
  }

  /** Along a path the awaited addresses ascend. */
  lemma {:induction false} AwaitedAscends(cfg: seq<Conn>, s: State, path: seq<nat>)
    requires ValidConfig(cfg) && Inv(cfg, s) && WaitPath(cfg, s, path) && |path| >= 2
    requires Blocked(cfg, s, path[|path| - 1])
    ensures path[0] < |cfg| && path[|path| - 1] < |cfg|
    ensures Target(cfg[path[0]], s.threads[path[0]])
          < Target(cfg[path[|path| - 1]], s.threads[path[|path| - 1]])
  {
    var c, d := path[0], path[1];
    assert LinkAt(cfg, s, path, 0);
    assert Blocked(cfg, s, d) by {
      if |path| > 2 { assert LinkAt(cfg, s, path, 1); }
    }
    WaitsAboveHeld(cfg, s, d, Target(cfg[c], s.threads[c]));
    if |path| > 2 {
      forall j | 0 <= j < |path[1..]| - 1 ensures LinkAt(cfg, s, path[1..], j) {
        assert LinkAt(cfg, s, path, j + 1);
      }
      AwaitedAscends(cfg, s, path[1..]);
    }
  }

  /** The wait-for graph of every reachable state is acyclic. */
  lemma WaitForAcyclic(cfg: seq<Conn>, run: seq<State>, who: seq<nat>, n: nat, path: seq<nat>)
    requires ValidConfig(cfg) && IsRun(cfg, run, who) && StartsInitial(cfg, run) && n < |run|
    requires WaitPath(cfg, run[n], path) && |path| >= 2
    ensures path[0] != path[|path| - 1]
  {
    RunInv(cfg, run, who, n);
    assert LinkAt(cfg, run[n], path, 0);
    if path[0] == path[|path| - 1] {
      AwaitedAscends(cfg, run[n], path);
    }
  }

  /** c can take a step: inside btmutex.c its next one, in client code the sqlite3BtreeLeave of a
      Btree that it holds. */
  ghost predicate CanProgress(cfg: seq<Conn>, s: State, c: nat)
    requires Shaped(cfg, s) && c < |cfg|
  {
    if s.threads[c].pc == Client
    then exists r :: 0 <= r < |cfg[c].list| && Holds(cfg, s, c, r)
                     && MayBegin(cfg[c], s.threads[c], Job(false, [Sharable(r)], 0))
    else exists s' :: Step(cfg, s, s', c)
  }

  /** A connection that holds a mutex and is not blocked can make progress. */
  lemma HolderProgresses(cfg: seq<Conn>, s: State, c: nat, a: nat)
    requires ValidConfig(cfg) && Inv(cfg, s) && c < |cfg| && !Blocked(cfg, s, c)
    requires a in s.owner && s.owner[a] == c
    ensures CanProgress(cfg, s, c)
  {
    var k, t := cfg[c], s.threads[c];
    assert ThreadInv(k, t);
    if t.pc == Client {
      var r :| 0 <= r < |k.list| && k.list[r] == a;
      assert Holds(cfg, s, c, r) <==> Owns(t, r);
      var job := Job(false, [Sharable(r)], 0);
      forall u | 0 <= u < |t.want| ensures Tally(job.slots, u, 1) <= t.want[u] {
        assert Tally(job.slots, u, 0) == 0;
      }
      assert MayBegin(k, t, job);
    } else {
      var won := t.pc.Wait?;
      assert MayWin(cfg, s, c, won);
      assert Step(cfg, s, Internal(cfg, s, c, won), c);
    }
  }

  lemma LinkBefore(cfg: seq<Conn>, s: State, c: nat, rest: seq<nat>)
    requires Shaped(cfg, s) && c < |cfg| && Blocked(cfg, s, c) && WaitPath(cfg, s, rest)
    requires rest[0] == s.owner[Target(cfg[c], s.threads[c])]
    ensures WaitPath(cfg, s, [c] + rest)
  {
    var path := [c] + rest;
    forall j | 0 <= j < |path| - 1 ensures LinkAt(cfg, s, path, j) {
      if j > 0 { assert LinkAt(cfg, s, rest, j - 1); }
    }
  }

  /** How many held mutexes lie above the one that c waits for. */
  ghost function WaitRank(cfg: seq<Conn>, s: State, c: nat): nat
    requires Shaped(cfg, s) && c < |cfg|
  {
    if Blocked(cfg, s, c) then 1 + |Above(s.owner, Target(cfg[c], s.threads[c]))| else 0
  }

  /** The connection that c waits for, and that it waits higher up. */
  lemma WaitsHigher(cfg: seq<Conn>, s: State, c: nat) returns (d: nat)
    requires ValidConfig(cfg) && Inv(cfg, s) && c < |cfg| && Blocked(cfg, s, c)
    ensures d < |cfg| && d == s.owner[Target(cfg[c], s.threads[c])]
    ensures WaitRank(cfg, s, d) < WaitRank(cfg, s, c)
  {
    var a := Target(cfg[c], s.threads[c]);
    d := s.owner[a];
    if Blocked(cfg, s, d) {
      WaitsAboveHeld(cfg, s, d, a);
      FewerAbove(s.owner, a, Target(cfg[d], s.threads[d]));
    }
  }

  /** Following the waits from a blocked connection ends at one that is not blocked. */
  lemma {:induction false} WaitsEnd(cfg: seq<Conn>, s: State, c: nat) returns (path: seq<nat>)
    requires ValidConfig(cfg) && Inv(cfg, s) && c < |cfg|
    ensures WaitPath(cfg, s, path) && path[0] == c
    ensures path[|path| - 1] < |cfg| && !Blocked(cfg, s, path[|path| - 1])
    decreases WaitRank(cfg, s, c)
  {
    if Blocked(cfg, s, c) {
      var d := WaitsHigher(cfg, s, c);
      var rest := WaitsEnd(cfg, s, d);
      path := [c] + rest;
      LinkBefore(cfg, s, c, rest);
    } else {
      path := [c];
    }
  }

  function Above(owner: map<nat, nat>, a: nat): set<nat> {
    set x | x in owner && x > a
  }

  lemma FewerAbove(owner: map<nat, nat>, a: nat, b: nat)
    requires a < b && b in owner
    ensures |Above(owner, b)| < |Above(owner, a)|
  {
    assert b in Above(owner, a) && b !in Above(owner, b);
    SmallerSet(Above(owner, b), Above(owner, a));
  }

  lemma SmallerSet(a: set<nat>, b: set<nat>)
    requires a < b
    ensures |a| < |b|
  {
    assert b - a != {};
    var x :| x in b - a;
    assert a <= b - {x};
    SubsetSize(a, b - {x});
  }

  lemma SubsetSize(a: set<nat>, b: set<nat>)
    requires a <= b
    ensures |a| <= |b|
  {
    if a != {} {
      var x :| x in a;
      SubsetSize(a - {x}, b - {x});
    }
  }

  /** Deadlock freedom: whenever a connection is blocked, the connection at the end of its chain
      of waits is not, holds a mutex, and can take a step. */
  lemma DeadlockFree(cfg: seq<Conn>, run: seq<State>, who: seq<nat>, n: nat, c: nat) returns (path: seq<nat>)
    requires ValidConfig(cfg) && IsRun(cfg, run, who) && StartsInitial(cfg, run) && n < |run|
    requires Blocked(cfg, run[n], c)
    ensures WaitPath(cfg, run[n], path) && |path| >= 2 && path[0] == c
    ensures var d := path[|path| - 1];
            && d < |cfg| && !Blocked(cfg, run[n], d) && CanProgress(cfg, run[n], d)
            && (exists a :: a in run[n].owner && run[n].owner[a] == d)
  {
    RunInv(cfg, run, who, n);
    path := WaitsEnd(cfg, run[n], c);
    var last := |path| - 1;
    assert LinkAt(cfg, run[n], path, last - 1);
    HolderProgresses(cfg, run[n], path[last], Target(cfg[path[last - 1]], run[n].threads[path[last - 1]]));
  }
}
