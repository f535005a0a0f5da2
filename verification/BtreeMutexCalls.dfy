/** The routines of sqlcipher/src/btmutex.c as they update the fields of the Btrees of one connection,
    and that they take exactly the steps of the step system. */
module BtreeMutexCalls {
  import opened BtreeMutexModel
  import opened BtreeMutexSafety

  function Log(e: Effect): seq<Effect> {
    if e == Nothing then [] else [e]
  }

  datatype Progress = Progress(thread: Thread, effects: seq<Effect>)

  /** Step i of the step system led from one point of the trail to the next. */
  ghost predicate StepOk(k: Conn, trail: seq<Progress>, wins: seq<bool>, i: nat)
    requires i < |wins| && |trail| == |wins| + 1
  {
    TookStep(k, trail[i], wins[i], trail[i + 1])
  }

  /** The next step of a thread: to begin a job, or inside one to advance. */
  ghost predicate TookStep(k: Conn, from: Progress, won: bool, to: Progress) {
    var t := from.thread;
    && InRange(k, t)
    && if t.pc == Client
       then exists job :: MayBegin(k, t, job) && to == Progress(Started(t, job), from.effects)
       else to == Progress(Advance(k, t, won), from.effects + Log(StepEffect(k, t, won)))
  }

  function Started(t: Thread, job: Job): Thread {
    t.(pc := Walk, job := job, base := t.want)
  }

  /** A thread still works on the same slot of the same job, */
  predicate SameJob(t: Thread, t': Thread) {
    t'.job == t.job && t'.base == t.base
  }

  /** or has returned from it. */
  predicate Returned(t: Thread, t': Thread) {
    t'.pc == Walk && t'.job == t.job.(i := t.job.i + 1) && t'.base == t.base
  }

  /** The trail is one of the step system, from the beginning. */
  ghost predicate IsTrail(k: Conn, trail: seq<Progress>, wins: seq<bool>) {
    && |trail| == |wins| + 1 && IdleThread(k, trail[0].thread)
    && forall i | 0 <= i < |wins| :: StepOk(k, trail, wins, i)
  }

  lemma TrailOn(k: Conn, trail: seq<Progress>, wins: seq<bool>, won: bool, to: Progress)
    requires IsTrail(k, trail, wins) && TookStep(k, trail[|wins|], won, to)
    ensures IsTrail(k, trail + [to], wins + [won])
  {
    forall i | 0 <= i < |wins| + 1 ensures StepOk(k, trail + [to], wins + [won], i) {
      if i < |wins| { assert StepOk(k, trail, wins, i); }
    }
  }

  class Connection {
    const k: Conn
    const locked: array<bool>        // Btree.locked along the pNext list
    const want: array<nat>           // Btree.wantToLock along the pNext list
    var effects: seq<Effect>         // the mutex operations and the assignments to BtShared.db
    ghost var thread: Thread         // the thread of the step system
    ghost var trail: seq<Progress>   // where it has been
    ghost var wins: seq<bool>        // which of its steps got the mutex they asked for

    /** The fields are those of the thread of the step system, which has got here by its own steps and keeps
        its part of the invariant. */
    ghost predicate Valid()
      reads this, locked, want
    {
      && ValidConn(k) && locked.Length == want.Length == |k.list|
      && ThreadInv(k, thread) && locked[..] == thread.locked && want[..] == thread.want
      && IsTrail(k, trail, wins) && trail[|wins|] == Progress(thread, effects)
    }

    /** All mutexes free, no Btree wanted. */
    constructor (k: Conn)
      requires ValidConn(k)
      ensures Valid() && this.k == k && fresh(locked) && fresh(want)
      ensures thread.pc == Client && trail == [Progress(thread, [])]
      ensures forall r | 0 <= r < |k.list| :: !locked[r] && want[r] == 0
    {
      this.k := k;
      locked := new bool[|k.list|](_ => false);
      want := new nat[|k.list|](_ => 0);
      effects := [];
      wins := [];
      var none := seq(|k.list|, _ => 0);
      var t := Thread(Client, Job(true, [], 0), seq(|k.list|, _ => false), none, none);
      trail := [Progress(t, [])];
      thread := t;
    }

    /** Client code begins a call. */
    ghost method BeginJob(job: Job)
      requires Valid() && MayBegin(k, thread, job)
      modifies this`thread, this`wins, this`trail
      ensures Valid() && thread == Started(old(thread), job) && old(trail) < trail
    {
      BeginThreadInv(k, thread, job);
      var to := Progress(Started(thread, job), effects);
      TrailOn(k, trail, wins, false, to);
      thread := to.thread;
      trail := trail + [to];
      wins := wins + [false];
    }

    /** The step system follows: what has just been done to the fields was its next step. */
    ghost method Tick(won: bool, was: seq<Effect>)
      requires ValidConn(k) && locked.Length == want.Length == |k.list|
      requires ThreadInv(k, thread) && thread.pc != Client
      requires IsTrail(k, trail, wins) && trail[|wins|] == Progress(thread, was)
      requires effects == was + Log(StepEffect(k, thread, won))
      requires locked[..] == Advance(k, thread, won).locked && want[..] == Advance(k, thread, won).want
      modifies this`thread, this`wins, this`trail
      ensures Valid() && thread == Advance(k, old(thread), won) && old(trail) < trail
    {
      AdvanceThreadInv(k, thread, won);
      var to := Progress(Advance(k, thread, won), effects);
      TrailOn(k, trail, wins, won, to);
      thread := to.thread;
      trail := trail + [to];
      wins := wins + [won];
    }

    /** A statement that only looks. */
    ghost method Look()
      requires Valid() && thread.pc != Client && StepEffect(k, thread, false) == Nothing
      requires Advance(k, thread, false).locked == thread.locked && Advance(k, thread, false).want == thread.want
      modifies this`thread, this`wins, this`trail
      ensures Valid() && thread == Advance(k, old(thread), false) && old(trail) < trail
    {
      assert effects + [] == effects;
      Tick(false, effects);
    }

    /** A mutex operation, or an assignment to BtShared.db. */
    method Shared(e: Effect, ghost won: bool)
      requires Valid() && thread.pc != Client && e == StepEffect(k, thread, won) != Nothing
      requires Advance(k, thread, won).locked == thread.locked && Advance(k, thread, won).want == thread.want
      modifies this`effects, this`thread, this`wins, this`trail
      ensures Valid() && thread == Advance(k, old(thread), won) && old(trail) < trail
      ensures effects == old(effects) + [e]
    {
      ghost var was := effects;
      effects := effects + [e];
      Tick(won, was);
    }

    method SetLocked(q: nat, value: bool)
      requires Valid() && thread.pc != Client && StepEffect(k, thread, false) == Nothing && q < |k.list|
      requires Advance(k, thread, false).locked == thread.locked[q := value]
      requires Advance(k, thread, false).want == thread.want
      modifies this`thread, this`wins, this`trail, locked
      ensures Valid() && thread == Advance(k, old(thread), false) && old(trail) < trail
    {
      locked[q] := value;
      assert effects + [] == effects;
      Tick(false, effects);
    }

    method SetWant(q: nat, value: nat)
      requires Valid() && thread.pc != Client && StepEffect(k, thread, false) == Nothing && q < |k.list|
      requires Advance(k, thread, false).want == thread.want[q := value]
      requires Advance(k, thread, false).locked == thread.locked
      modifies this`thread, this`wins, this`trail, want
      ensures Valid() && thread == Advance(k, old(thread), false) && old(trail) < trail
    {
      want[q] := value;
      assert effects + [] == effects;
      Tick(false, effects);
    }

    /** lockBtreeMutex. */
    method LockBtreeMutex(q: nat, ghost p: nat)
      requires Valid() && thread.pc == Wait(p, q)
      modifies this`effects, this`thread, this`wins, this`trail, locked
      ensures Valid() && old(trail) < trail && thread.pc == Relock(p, q + 1) && SameJob(old(thread), thread)
      ensures effects == old(effects) + [Acquire(k.list[q])] + [SetDb(k.list[q])]
    {
      Shared(Acquire(k.list[q]), true);
      Shared(SetDb(k.list[q]), false);
      SetLocked(q, true);
    }

    /** unlockBtreeMutex, in the first loop over pLater or from sqlite3BtreeLeave. */
    method UnlockBtreeMutex(q: nat, ghost p: nat)
      requires Valid() && q < |k.list|
      requires (thread.pc == Drop(p, q) && locked[q]) || thread.pc == LeaveUnlock(q)
      modifies this`effects, this`thread, this`wins, this`trail, locked
      ensures Valid() && old(trail) < trail && effects == old(effects) + [Release(k.list[q])]
      ensures old(thread.pc).Drop? ==> thread.pc == Drop(p, q + 1) && SameJob(old(thread), thread)
      ensures old(thread.pc).LeaveUnlock? ==> Returned(old(thread), thread)
    {
      Shared(Release(k.list[q]), false);
      SetLocked(q, false);
    }

    /** sqlite3BtreeEnter on a sharable Btree: it is locked on return, with its counter one higher, and of the
        others exactly those are locked that are wanted. */
    method BtreeEnter(p: nat)
      requires Valid() && thread.pc == EnterTop(p)
      modifies this`effects, this`thread, this`wins, this`trail, locked, want
      ensures Valid() && old(trail) < trail
      ensures want[..] == old(want[..])[p := old(want[p]) + 1]
      ensures locked[p] && forall r | 0 <= r < |k.list| :: locked[r] <==> want[r] > 0
      ensures Returned(old(thread), thread)
    {
      SetWant(p, want[p] + 1);
      if !locked[p] { TakeMutex(p); }
      LockedWhenWanted(k, thread);
    }

    /** sqlite3_mutex_try gets the mutex, or the back-off follows. */
    method TakeMutex(p: nat)
      requires Valid() && thread.pc == Try(p)
      modifies this`effects, this`thread, this`wins, this`trail, locked
      ensures Valid() && old(trail) < trail
      ensures Returned(old(thread), thread)
    {
      var free := *;
      if free {
        TakeFree(p);
      } else {
        WaitFor(p);
      }
    }

    /** The back-off. */
    method WaitFor(p: nat)
      requires Valid() && thread.pc == Try(p)
      modifies this`effects, this`thread, this`wins, this`trail, locked
      ensures Valid() && old(trail) < trail
      ensures Returned(old(thread), thread)
    {
      Look();
      DropLater(p);
      LockBtreeMutex(p, p);
      RelockLater(p);
    }

    /** sqlite3_mutex_try has got the mutex. */
    method TakeFree(p: nat)
      requires Valid() && thread.pc == Try(p)
      modifies this`effects, this`thread, this`wins, this`trail, locked
      ensures Valid() && old(trail) < trail
      ensures Returned(old(thread), thread)
    {
      Shared(Acquire(k.list[p]), true);
      Shared(SetDb(k.list[p]), false);
      SetLocked(p, true);
    }

    /** The loop that gives up all larger mutexes. */
    method DropLater(p: nat)
      requires Valid() && thread.pc == Drop(p, p + 1)
      modifies this`effects, this`thread, this`wins, this`trail, locked
      ensures Valid() && old(trail) < trail && thread.pc == Wait(p, p) && SameJob(old(thread), thread)
    {
      var q := p + 1;
      while q < |k.list|
        invariant Valid() && thread.pc == Drop(p, q) && old(trail) <= trail && SameJob(old(thread), thread)
        decreases |k.list| - q
      {
        if locked[q] {
          UnlockBtreeMutex(q, p);
        } else {
          Look();
        }
        q := q + 1;
      }
      Look();
    }

    /** The loop that takes those back that are still wanted. */
    method RelockLater(p: nat)
      requires Valid() && thread.pc == Relock(p, p + 1)
      modifies this`effects, this`thread, this`wins, this`trail, locked
      ensures Valid() && old(trail) < trail
      ensures Returned(old(thread), thread)
    {
      var q := p + 1;
      while q < |k.list|
        invariant Valid() && thread.pc == Relock(p, q) && old(trail) <= trail && SameJob(old(thread), thread)
        decreases |k.list| - q
      {
        RelockOne(q, p);
        q := q + 1;
      }
      Look();
    }

    /** The body of that loop. */
    method RelockOne(q: nat, ghost p: nat)
      requires Valid() && thread.pc == Relock(p, q) && q < |k.list|
      modifies this`effects, this`thread, this`wins, this`trail, locked
      ensures Valid() && old(trail) < trail && thread.pc == Relock(p, q + 1) && SameJob(old(thread), thread)
    {
      Look();
      if want[q] > 0 {
        LockBtreeMutex(q, p);
      }
    }

    /** sqlite3BtreeLeave on a sharable Btree. */
    method BtreeLeave(p: nat)
      requires Valid() && thread.pc == LeaveTop(p) && want[p] > 0
      modifies this`effects, this`thread, this`wins, this`trail, locked, want
      ensures Valid() && old(trail) < trail
      ensures Returned(old(thread), thread)
      ensures want[..] == old(want[..])[p := old(want[p]) - 1]
      ensures forall r | 0 <= r < |k.list| :: locked[r] <==> want[r] > 0
    {
      SetWant(p, want[p] - 1);
      if want[p] == 0 {
        UnlockBtreeMutex(p, p);
      }
      LockedWhenWanted(k, thread);
    }

    /** The body of the loop of sqlite3BtreeEnterAll. */
    method EnterSlot(i: nat)
      requires Valid() && thread.pc == Walk && i < |k.aDb| && thread.job == Job(true, k.aDb, i)
      modifies this`effects, this`thread, this`wins, this`trail, locked, want
      ensures Valid() && old(trail) < trail && Returned(old(thread), thread)
    {
      Look();
      if k.aDb[i].Sharable? { BtreeEnter(k.aDb[i].idx); }
    }

    /** The body of the loop of sqlite3BtreeLeaveAll. */
    method LeaveSlot(i: nat)
      requires Valid() && thread.pc == Walk && i < |k.aDb| && thread.job == Job(false, k.aDb, i)
      modifies this`effects, this`thread, this`wins, this`trail, locked, want
      ensures Valid() && old(trail) < trail && Returned(old(thread), thread)
    {
      Look();
      if k.aDb[i].Sharable? { BtreeLeave(k.aDb[i].idx); }
    }

    /** The end of either loop. */
    ghost method Finish()
      requires Valid() && thread.pc == Walk && thread.job.slots == k.aDb && thread.job.i == |k.aDb|
      modifies this`thread, this`wins, this`trail
      ensures Valid() && old(trail) < trail && thread.pc == Client
      ensures forall r | 0 <= r < |k.list| :: locked[r] <==> want[r] > 0
      ensures var n, base := |k.aDb|, old(thread).base;
              forall r | 0 <= r < |k.list| ::
                want[r] == if old(thread).job.entering then base[r] + Tally(k.aDb, r, n)
                           else base[r] - Tally(k.aDb, r, n)
      ensures forall i | 0 <= i < |k.aDb| && k.aDb[i].Sharable? && old(thread).job.entering :: want[k.aDb[i].idx] > 0
    {
      Look();
      LockedWhenWanted(k, thread);
      CountedAll(k, thread);
    }

    /** The loop of sqlite3BtreeEnterAll.  Every named Btree is locked on return. */
    method BtreeEnterAll()
      requires Valid() && thread.pc == Client
      modifies this`effects, this`thread, this`wins, this`trail, locked, want
      ensures Valid() && old(trail) < trail && thread.pc == Client
      ensures forall r | 0 <= r < |k.list| :: want[r] == old(want[r]) + Tally(k.aDb, r, |k.aDb|)
      ensures forall r | 0 <= r < |k.list| :: locked[r] <==> want[r] > 0
      ensures forall i | 0 <= i < |k.aDb| && k.aDb[i].Sharable? :: locked[k.aDb[i].idx]
    {
      BeginJob(Job(true, k.aDb, 0));
      var i := 0;
      while i < |k.aDb|
        invariant 0 <= i <= |k.aDb| && Valid() && old(trail) <= trail
        invariant thread.pc == Walk && thread.job == Job(true, k.aDb, i) && thread.base == old(want[..])
        decreases |k.aDb| - i
      {
        EnterSlot(i);
        i := i + 1;
      }
      Finish();
    }

    /** The loop of sqlite3BtreeLeaveAll. */
    method BtreeLeaveAll()
      requires Valid() && thread.pc == Client
      requires forall r | 0 <= r < |k.list| :: Tally(k.aDb, r, |k.aDb|) <= want[r]
      modifies this`effects, this`thread, this`wins, this`trail, locked, want
      ensures Valid() && old(trail) < trail && thread.pc == Client
      ensures forall r | 0 <= r < |k.list| :: want[r] == old(want[r]) - Tally(k.aDb, r, |k.aDb|)
      ensures forall r | 0 <= r < |k.list| :: locked[r] <==> want[r] > 0
    {
      BeginJob(Job(false, k.aDb, 0));
      var i := 0;
      while i < |k.aDb|
        invariant 0 <= i <= |k.aDb| && Valid() && old(trail) <= trail
        invariant thread.pc == Walk && thread.job == Job(false, k.aDb, i) && thread.base == old(want[..])
        decreases |k.aDb| - i
      {
        LeaveSlot(i);
        i := i + 1;
      }
      Finish();
    }
  }

  /** Between calls `locked` is set exactly where wantToLock is positive, */
  lemma LockedWhenWanted(k: Conn, t: Thread)
    requires ThreadInv(k, t) && (t.pc == Walk || t.pc == Client)
    ensures forall r | 0 <= r < |k.list| :: t.locked[r] <==> t.want[r] > 0
  {
  }

  /** and after a job every counter has moved by its share of the slots. */
  lemma CountedAll(k: Conn, t: Thread)
    requires ThreadInv(k, t) && t.pc == Client
    ensures var n := |t.job.slots|;
            forall r | 0 <= r < |k.list| ::
              t.want[r] == if t.job.entering then t.base[r] + Tally(t.job.slots, r, n)
                           else t.base[r] - Tally(t.job.slots, r, n)
    ensures forall i | 0 <= i < |t.job.slots| && t.job.slots[i].Sharable? && t.job.entering ::
              t.want[t.job.slots[i].idx] > 0
  {
    forall i | 0 <= i < |t.job.slots| && t.job.slots[i].Sharable?
      ensures Tally(t.job.slots, t.job.slots[i].idx, |t.job.slots|) > 0
    {
      TallyCounts(t.job.slots, i);
    }
  }
}
