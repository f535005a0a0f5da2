/** What every step of the mutex protocol keeps, and what follows for every run. */
module BtreeMutexSafety {
  import opened BtreeMutexModel

  // ---------- The invariant ----------

  /** locked and wantToLock agree for the Btrees lo to hi-1, as they do for all of them outside an
      Enter or Leave in progress. */
  predicate Quiet(t: Thread, lo: nat, hi: nat)
    requires |t.locked| == |t.want| && hi <= |t.locked|
  {
    forall r | lo <= r < hi :: t.locked[r] <==> t.want[r] > 0
  }

  predicate Unlocked(t: Thread, lo: nat, hi: nat)
    requires hi <= |t.locked|
  {
    forall r | lo <= r < hi :: !t.locked[r]
  }

  /** Which Btrees are quiet, which unlocked, at each point of the code. */
  predicate Locks(k: Conn, t: Thread)
    requires InRange(k, t)
  {
    match t.pc
    case Client | Walk => Quiet(t, 0, |k.list|)
    case EnterTop(p) => Quiet(t, 0, |k.list|)
    case Try(p) => AllButOne(k, t, p)
    case Drop(p, q) =>
      && t.want[p] > 0
      && Quiet(t, 0, p)
      && Unlocked(t, p, q)
      && Quiet(t, q, |k.list|)
    case DropMark(p, q) =>
      && t.want[p] > 0 && t.want[q] > 0 && t.locked[q]
      && Quiet(t, 0, p)
      && Unlocked(t, p, q)
      && Quiet(t, q + 1, |k.list|)
    case Wait(p, q) => t.want[p] > 0 && t.want[q] > 0 && Climbing(k, t, q)
    case Claim(p, q, fast) =>
      t.want[p] > 0 && t.want[q] > 0 && if fast then AllButOne(k, t, p) else Climbing(k, t, q)
    case Mark(p, q, fast) =>
      t.want[p] > 0 && t.want[q] > 0 && if fast then AllButOne(k, t, p) else Climbing(k, t, q)
    case Relock(p, q) => t.want[p] > 0 && Climbing(k, t, q)
    case LeaveTop(p) => t.want[p] > 0 && Quiet(t, 0, |k.list|)
    case LeaveUnlock(p) =>
      t.want[p] == 0 && t.locked[p] && Quiet(t, 0, p) && Quiet(t, p + 1, |k.list|)
    case LeaveMark(p) =>
      t.want[p] == 0 && t.locked[p] && Quiet(t, 0, p) && Quiet(t, p + 1, |k.list|)
  }

  predicate AllButOne(k: Conn, t: Thread, p: nat)
    requires |k.list| == |t.locked| == |t.want| && p < |k.list|
  {
    && t.want[p] > 0 && !t.locked[p]
    && Quiet(t, 0, p) && Quiet(t, p + 1, |k.list|)
  }

  predicate Climbing(k: Conn, t: Thread, q: nat)
    requires |k.list| == |t.locked| == |t.want| && q <= |k.list|
  {
    && Quiet(t, 0, q)
    && Unlocked(t, q, |k.list|)
  }

  /** How many slots of the job already show in wantToLock. */
  function Counted(t: Thread): nat {
    match t.pc
    case Client | Walk | EnterTop(_) | LeaveTop(_) => t.job.i
    case _ => t.job.i + 1
  }

  /** wantToLock is what it was when the job began, moved by the slots already counted. */
  predicate Counts(k: Conn, t: Thread)
    requires InRange(k, t)
  {
    && Counted(t) <= |t.job.slots|
    && (t.pc.Client? ==> t.job.i == |t.job.slots|)
    && forall r | 0 <= r < |k.list| ::
         if t.job.entering then t.want[r] == t.base[r] + Tally(t.job.slots, r, Counted(t))
         else && t.want[r] + Tally(t.job.slots, r, Counted(t)) == t.base[r]
              && Tally(t.job.slots, r, |t.job.slots|) <= t.base[r]
  }

  /** Whether the thread owns the mutex of Btree r: what `locked` says, except in the gap between
      a mutex operation and the assignment that records it. */
  predicate Owns(t: Thread, r: nat)
    requires r < |t.locked|
  {
    match t.pc
    case DropMark(p, q) => r != q && t.locked[r]
    case LeaveMark(p) => r != p && t.locked[r]
    case Claim(p, q, fast) => r == q || t.locked[r]
    case Mark(p, q, fast) => r == q || t.locked[r]
    case _ => t.locked[r]
  }

  /** The thread owns r and has already set its pBt->db. */
  predicate OwnsWithDb(t: Thread, r: nat)
    requires r < |t.locked|
  {
    Owns(t, r) && !(t.pc.Claim? && t.pc.q == r)
  }

  predicate ThreadInv(k: Conn, t: Thread) {
    InRange(k, t) && Locks(k, t) && Counts(k, t)
  }

  /** Owns is the truth about the mutexes, and OwnsWithDb about pBt->db. */
  predicate OwnershipTrue(cfg: seq<Conn>, s: State)
    requires Shaped(cfg, s)
  {
    && (forall c, r | 0 <= c < |cfg| && 0 <= r < |cfg[c].list| ::
          Holds(cfg, s, c, r) <==> Owns(s.threads[c], r))
    && (forall c, r | 0 <= c < |cfg| && 0 <= r < |cfg[c].list| ::
          OwnsWithDb(s.threads[c], r) ==> DbIs(cfg[c], s, c, r))
    && (forall a | a in s.owner :: s.owner[a] < |cfg| && a in cfg[s.owner[a]].list)
  }

  predicate Inv(cfg: seq<Conn>, s: State) {
    && Shaped(cfg, s)
    && (forall c | 0 <= c < |cfg| :: ThreadInv(cfg[c], s.threads[c]))
    && OwnershipTrue(cfg, s)
  }

  // ---------- Every step keeps it ----------

  lemma InitialInv(cfg: seq<Conn>, s: State)
    requires Initial(cfg, s)
    ensures Inv(cfg, s)
  {
  }

  lemma TallyMonotone(slots: seq<Slot>, r: nat, m: nat, n: nat)
    requires m <= n <= |slots|
    ensures Tally(slots, r, m) <= Tally(slots, r, n)
  {
  }

  lemma TallyCounts(slots: seq<Slot>, i: nat)
    requires i < |slots| && slots[i].Sharable?
    ensures Tally(slots, slots[i].idx, |slots|) > 0
  {
    TallyMonotone(slots, slots[i].idx, i + 1, |slots|);
  }

  lemma AdvanceKeepsJob(k: Conn, t: Thread, won: bool)
    requires InRange(k, t) && t.pc != Client
    ensures var t' := Advance(k, t, won);
            t'.base == t.base && t'.job.slots == t.job.slots && t'.job.entering == t.job.entering
  {
  }

  /** The part of the invariant that concerns one thread is kept by its own code alone. */
  lemma AdvanceThreadInv(k: Conn, t: Thread, won: bool)
    requires ThreadInv(k, t) && t.pc != Client
    ensures ThreadInv(k, Advance(k, t, won))
  {
    AdvanceInRange(k, t, won);
    AdvanceLocks(k, t, won);
    AdvanceCounts(k, t, won);
  }

  lemma AdvanceInRange(k: Conn, t: Thread, won: bool)
    requires InRange(k, t) && t.pc != Client
    ensures InRange(k, Advance(k, t, won))
  {
  }

  lemma AdvanceLocks(k: Conn, t: Thread, won: bool)
    requires ThreadInv(k, t) && t.pc != Client && InRange(k, Advance(k, t, won))
    ensures Locks(k, Advance(k, t, won))
  {
    match t.pc
    case Walk => LocksWalk(k, t, won);
    case EnterTop(_) | Try(_) => LocksTry(k, t, won);
    case Drop(_, _) | DropMark(_, _) => LocksDrop(k, t, won);
    case Wait(_, _) | Claim(_, _, _) => LocksWait(k, t, won);
    case Mark(_, _, _) | Relock(_, _) => LocksRelock(k, t, won);
    case LeaveTop(_) | LeaveUnlock(_) | LeaveMark(_) => LocksLeave(k, t, won);
  }

  lemma LocksWalk(k: Conn, t: Thread, won: bool)
    requires ThreadInv(k, t) && t.pc.Walk? && InRange(k, Advance(k, t, won))
    ensures Locks(k, Advance(k, t, won))
  {
    if t.job.i < |t.job.slots| && t.job.slots[t.job.i].Sharable? && !t.job.entering {
      var p := t.job.slots[t.job.i].idx;
      TallyMonotone(t.job.slots, p, t.job.i + 1, |t.job.slots|);
      assert t.want[p] + Tally(t.job.slots, p, t.job.i) == t.base[p];
    }
  }

  lemma LocksTry(k: Conn, t: Thread, won: bool)
    requires ThreadInv(k, t) && (t.pc.EnterTop? || t.pc.Try?) && InRange(k, Advance(k, t, won))
    ensures Locks(k, Advance(k, t, won))
  {
  }

  lemma LocksDrop(k: Conn, t: Thread, won: bool)
    requires ThreadInv(k, t) && (t.pc.Drop? || t.pc.DropMark?) && InRange(k, Advance(k, t, won))
    ensures Locks(k, Advance(k, t, won))
  {
  }

  lemma LocksWait(k: Conn, t: Thread, won: bool)
    requires ThreadInv(k, t) && (t.pc.Wait? || t.pc.Claim?) && InRange(k, Advance(k, t, won))
    ensures Locks(k, Advance(k, t, won))
  {
  }

  lemma LocksRelock(k: Conn, t: Thread, won: bool)
    requires ThreadInv(k, t) && (t.pc.Mark? || t.pc.Relock?) && InRange(k, Advance(k, t, won))
    ensures Locks(k, Advance(k, t, won))
  {
  }

  lemma LocksLeave(k: Conn, t: Thread, won: bool)
    requires ThreadInv(k, t) && (t.pc.LeaveTop? || t.pc.LeaveUnlock? || t.pc.LeaveMark?)
    requires InRange(k, Advance(k, t, won))
    ensures Locks(k, Advance(k, t, won))
  {
  }

  lemma AdvanceCounts(k: Conn, t: Thread, won: bool)
    requires ThreadInv(k, t) && t.pc != Client && InRange(k, Advance(k, t, won))
    ensures Counts(k, Advance(k, t, won))
  {
    if t.pc.Walk? {
      CountsWalk(k, t, won);
    } else if t.pc.EnterTop? || t.pc.LeaveTop? {
      CountsTop(k, t, won);
    } else {
      CountsKept(k, t, won);
    }
  }

  lemma CountsKept(k: Conn, t: Thread, won: bool)
    requires ThreadInv(k, t) && t.pc != Client && InRange(k, Advance(k, t, won))
    requires !t.pc.Walk? && !t.pc.EnterTop? && !t.pc.LeaveTop?
    ensures Counts(k, Advance(k, t, won))
  {
    var t' := Advance(k, t, won);
    assert t'.want == t.want && t'.base == t.base && Counted(t') == Counted(t);
    assert t'.job.slots == t.job.slots && t'.job.entering == t.job.entering;
  }

  lemma CountsWalk(k: Conn, t: Thread, won: bool)
    requires ThreadInv(k, t) && t.pc.Walk? && InRange(k, Advance(k, t, won))
    ensures Counts(k, Advance(k, t, won))
  {
  }

  lemma CountsTop(k: Conn, t: Thread, won: bool)
    requires ThreadInv(k, t) && (t.pc.EnterTop? || t.pc.LeaveTop?) && InRange(k, Advance(k, t, won))
    ensures Counts(k, Advance(k, t, won))
  {
  }

  /** A step changes what a thread owns exactly as it changes the mutexes. */
  lemma AdvanceOwns(k: Conn, t: Thread, won: bool, r: nat)
    requires ThreadInv(k, t) && t.pc != Client && (t.pc.Wait? ==> won) && r < |k.list| && ValidConn(k)
    ensures var e := StepEffect(k, t, won);
            && (Owns(Advance(k, t, won), r) <==>
                  if e.Acquire? && e.addr == k.list[r] then true
                  else if e.Release? && e.addr == k.list[r] then false
                  else Owns(t, r))
            && (OwnsWithDb(Advance(k, t, won), r) ==>
                  OwnsWithDb(t, r) || (e.SetDb? && e.addr == k.list[r]))
  {
  }

  /** Mutexes are acquired free, released by their owner, and pBt->db is written by the owner. */
  lemma EffectAllowed(cfg: seq<Conn>, s: State, c: nat, won: bool)
    requires ValidConfig(cfg) && Inv(cfg, s) && c < |cfg| && s.threads[c].pc != Client
    requires MayWin(cfg, s, c, won)
    ensures match StepEffect(cfg[c], s.threads[c], won)
            case Nothing => true
            case Acquire(a) => a !in s.owner && a in cfg[c].list
            case Release(a) => a in s.owner && s.owner[a] == c && a in cfg[c].list
            case SetDb(a) => a in s.owner && s.owner[a] == c && a in cfg[c].list
  {
    var k, t := cfg[c], s.threads[c];
    match t.pc
    case Drop(p, q) => if q < |k.list| { assert Holds(cfg, s, c, q) <==> Owns(t, q); }
    case LeaveUnlock(p) => assert Holds(cfg, s, c, p) <==> Owns(t, p);
    case Claim(p, q, fast) => assert Holds(cfg, s, c, q) <==> Owns(t, q);
    case _ =>
  }

  /** How an effect of c shows in the mutex and the db field of Btree r of connection d. */
  lemma ApplyOwnership(cfg: seq<Conn>, s: State, c: nat, e: Effect, d: nat, r: nat)
    requires d < |cfg| && r < |cfg[d].list|
    ensures var a := cfg[d].list[r];
            && (Holds(cfg, Apply(s, c, e), d, r) <==>
                  if e == Acquire(a) then d == c else e != Release(a) && Holds(cfg, s, d, r))
            && (DbIs(cfg[d], Apply(s, c, e), d, r) <==>
                  if e == SetDb(a) then d == c else DbIs(cfg[d], s, d, r))
  {
  }

  /** For the connection that takes the step, */
  lemma OwnOwnership(cfg: seq<Conn>, s: State, c: nat, won: bool, r: nat)
    requires ValidConfig(cfg) && Inv(cfg, s) && c < |cfg| && s.threads[c].pc != Client
    requires MayWin(cfg, s, c, won) && r < |cfg[c].list| && InRange(cfg[c], Advance(cfg[c], s.threads[c], won))
    ensures var s', t' := Apply(s, c, StepEffect(cfg[c], s.threads[c], won)), Advance(cfg[c], s.threads[c], won);
            (Holds(cfg, s', c, r) <==> Owns(t', r)) && (OwnsWithDb(t', r) ==> DbIs(cfg[c], s', c, r))
  {
    var k, t := cfg[c], s.threads[c];
    ApplyOwnership(cfg, s, c, StepEffect(k, t, won), c, r);
    assert ThreadInv(k, t) && (Holds(cfg, s, c, r) <==> Owns(t, r)) && (OwnsWithDb(t, r) ==> DbIs(k, s, c, r));
    AdvanceOwns(k, t, won, r);
    EffectOnList(k, t, won);
  }

  lemma EffectOnList(k: Conn, t: Thread, won: bool)
    requires InRange(k, t) && t.pc != Client
    ensures match StepEffect(k, t, won)
            case Nothing => true
            case Acquire(a) => a in k.list
            case Release(a) => a in k.list
            case SetDb(a) => a in k.list
  {
  }

  /** and for another one. */
  lemma OtherOwnership(cfg: seq<Conn>, s: State, c: nat, won: bool, d: nat, r: nat)
    requires ValidConfig(cfg) && Inv(cfg, s) && c < |cfg| && s.threads[c].pc != Client
    requires MayWin(cfg, s, c, won) && d < |cfg| && d != c && r < |cfg[d].list|
    ensures var s', t := Apply(s, c, StepEffect(cfg[c], s.threads[c], won)), s.threads[d];
            (Holds(cfg, s', d, r) <==> Owns(t, r)) && (OwnsWithDb(t, r) ==> DbIs(cfg[d], s', d, r))
  {
    var t := s.threads[d];
    EffectAllowed(cfg, s, c, won);
    ApplyOwnership(cfg, s, c, StepEffect(cfg[c], s.threads[c], won), d, r);
    assert (Holds(cfg, s, d, r) <==> Owns(t, r)) && (OwnsWithDb(t, r) ==> DbIs(cfg[d], s, d, r));
  }

  lemma InternalOwnership(cfg: seq<Conn>, s: State, c: nat, won: bool, d: nat, r: nat)
    requires ValidConfig(cfg) && Inv(cfg, s) && c < |cfg| && s.threads[c].pc != Client
    requires MayWin(cfg, s, c, won) && d < |cfg| && r < |cfg[d].list|
    requires Shaped(cfg, Internal(cfg, s, c, won))
    ensures var s' := Internal(cfg, s, c, won);
            && (Holds(cfg, s', d, r) <==> Owns(s'.threads[d], r))
            && (OwnsWithDb(s'.threads[d], r) ==> DbIs(cfg[d], s', d, r))
  {
    if d == c {
      assert InRange(cfg[c], Internal(cfg, s, c, won).threads[c]);
      OwnOwnership(cfg, s, c, won, r);
    } else {
      OtherOwnership(cfg, s, c, won, d, r);
    }
  }

  lemma InternalInv(cfg: seq<Conn>, s: State, c: nat, won: bool)
    requires ValidConfig(cfg) && Inv(cfg, s) && c < |cfg| && s.threads[c].pc != Client
    requires MayWin(cfg, s, c, won)
    ensures Inv(cfg, Internal(cfg, s, c, won))
  {
    var s' := Internal(cfg, s, c, won);
    InternalThreads(cfg, s, c, won);
    forall d, r | 0 <= d < |cfg| && 0 <= r < |cfg[d].list|
      ensures Holds(cfg, s', d, r) <==> Owns(s'.threads[d], r)
      ensures OwnsWithDb(s'.threads[d], r) ==> DbIs(cfg[d], s', d, r)
    {
      InternalOwnership(cfg, s, c, won, d, r);
    }
    InternalOwners(cfg, s, c, won);
  }

  lemma InternalThreads(cfg: seq<Conn>, s: State, c: nat, won: bool)
    requires Inv(cfg, s) && c < |cfg| && s.threads[c].pc != Client
    ensures var s' := Internal(cfg, s, c, won);
            Shaped(cfg, s') && forall d | 0 <= d < |cfg| :: ThreadInv(cfg[d], s'.threads[d])
  {
    AdvanceThreadInv(cfg[c], s.threads[c], won);
    forall d | 0 <= d < |cfg| ensures ThreadInv(cfg[d], Internal(cfg, s, c, won).threads[d]) {
      if d != c { assert ThreadInv(cfg[d], s.threads[d]); }
    }
  }

  /** A mutex is owned by a connection that has it on its list. */
  lemma InternalOwners(cfg: seq<Conn>, s: State, c: nat, won: bool)
    requires ValidConfig(cfg) && Inv(cfg, s) && c < |cfg| && s.threads[c].pc != Client && MayWin(cfg, s, c, won)
    ensures var owner := Internal(cfg, s, c, won).owner;
            forall a | a in owner :: owner[a] < |cfg| && a in cfg[owner[a]].list
  {
    EffectAllowed(cfg, s, c, won);
  }

  /** A thread that begins a job. */
  lemma BeginThreadInv(k: Conn, t: Thread, job: Job)
    requires ThreadInv(k, t) && MayBegin(k, t, job)
    ensures ThreadInv(k, t.(pc := Walk, job := job, base := t.want))
  {
  }

  lemma BeginInv(cfg: seq<Conn>, s: State, c: nat, job: Job)
    requires Inv(cfg, s) && c < |cfg| && MayBegin(cfg[c], s.threads[c], job)
    ensures Inv(cfg, Begin(s, c, job))
  {
    var s' := Begin(s, c, job);
    forall d | 0 <= d < |cfg| ensures ThreadInv(cfg[d], s'.threads[d]) {
      assert ThreadInv(cfg[d], s.threads[d]);
      if d == c { BeginThreadInv(cfg[c], s.threads[c], job); }
    }
    forall d, r | 0 <= d < |cfg| && 0 <= r < |cfg[d].list|
      ensures Holds(cfg, s', d, r) <==> Owns(s'.threads[d], r)
      ensures OwnsWithDb(s'.threads[d], r) ==> DbIs(cfg[d], s', d, r)
    {
      assert Holds(cfg, s, d, r) <==> Owns(s.threads[d], r);
      assert OwnsWithDb(s.threads[d], r) ==> DbIs(cfg[d], s, d, r);
    }
  }

  lemma StepInv(cfg: seq<Conn>, s: State, s': State, c: nat)
    requires ValidConfig(cfg) && Inv(cfg, s) && Step(cfg, s, s', c)
    ensures Inv(cfg, s')
  {
    if s.threads[c].pc == Client {
      var job :| MayBegin(cfg[c], s.threads[c], job) && s' == Begin(s, c, job);
      BeginInv(cfg, s, c, job);
    } else {
      var won :| MayWin(cfg, s, c, won) && s' == Internal(cfg, s, c, won);
      InternalInv(cfg, s, c, won);
    }
  }

  lemma RunStepInv(cfg: seq<Conn>, run: seq<State>, who: seq<nat>, n: nat)
    requires ValidConfig(cfg) && IsRun(cfg, run, who) && 0 < n < |run| && Inv(cfg, run[n - 1])
    ensures Inv(cfg, run[n])
  {
    assert StepAt(cfg, run, who, n - 1);
    StepInv(cfg, run[n - 1], run[n], who[n - 1]);
  }

  /** The invariant holds in every state of every run. */
  lemma {:induction false} RunInv(cfg: seq<Conn>, run: seq<State>, who: seq<nat>, n: nat)
    requires ValidConfig(cfg) && IsRun(cfg, run, who) && StartsInitial(cfg, run) && n < |run|
    ensures Inv(cfg, run[n])
  {
    if n == 0 {
      InitialInv(cfg, run[n]);
    } else {
      RunInv(cfg, run, who, n - 1);
      RunStepInv(cfg, run, who, n);
    }
  }
}
