/**
  The shared-cache mutex protocol of sqlcipher/src/btmutex.c, as a system of interleaved steps.

  Every database connection runs on one thread (it holds db->mutex throughout a call).  The
  connections compete for the mutexes of the BtShared objects, which are named by their address.
  One step of a connection is one mutex operation or one assignment of the source, so another
  connection may run between a mutex operation and the bookkeeping that goes with it.
 */
module BtreeMutexModel {

  /** What db->aDb[i].pBt is: null, a Btree that is not sharable, or the idx-th Btree of the
      connection's pNext list. */
  datatype Slot = Empty | Private | Sharable(idx: nat)

  /** A connection: the BtShared addresses along its pNext list, and its aDb array. */
  datatype Conn = Conn(list: seq<nat>, aDb: seq<Slot>)

  /** The sqlite3BtreeEnter or sqlite3BtreeLeave calls that a connection is working through: the
      whole aDb array for EnterAll and LeaveAll, a single slot for a direct call. */
  datatype Job = Job(entering: bool, slots: seq<Slot>, i: nat)

  /** Where a connection is.  p is the Btree the call is about, q the list position it has reached. */
  datatype PC =
    | Client                                  // outside btmutex.c
    | Walk                                    // head of the loop over the slots of the job
    | EnterTop(p: nat)                        // about to increment wantToLock and test locked
    | Try(p: nat)                             // about to call sqlite3_mutex_try
    | Drop(p: nat, q: nat)                    // head of the first loop over pLater
    | DropMark(p: nat, q: nat)                // mutex of q left, q.locked still set
    | Wait(p: nat, q: nat)                    // about to call sqlite3_mutex_enter on q's mutex
    | Claim(p: nat, q: nat, fast: bool)       // q's mutex won, pBt->db not yet set
    | Mark(p: nat, q: nat, fast: bool)        // pBt->db set, q.locked not yet set
    | Relock(p: nat, q: nat)                  // head of the second loop over pLater
    | LeaveTop(p: nat)                        // about to decrement wantToLock
    | LeaveUnlock(p: nat)                     // wantToLock is zero, about to leave the mutex
    | LeaveMark(p: nat)                       // mutex left, locked still set

  /** The thread of a connection.  locked and want are the fields of the Btrees along the list.
      base is an auxiliary copy of want, taken when the current job began. */
  datatype Thread = Thread(pc: PC, job: Job, locked: seq<bool>, want: seq<nat>, base: seq<nat>)

  /** owner[a] is the connection holding the mutex of the BtShared at a; user[a] is its db field. */
  datatype State = State(owner: map<nat, nat>, user: map<nat, nat>, threads: seq<Thread>)

  datatype Effect = Nothing | Acquire(addr: nat) | Release(addr: nat) | SetDb(addr: nat)

  // ---------- The environment's promises ----------

  predicate ValidSlots(k: Conn, slots: seq<Slot>) {
    forall i | 0 <= i < |slots| && slots[i].Sharable? :: slots[i].idx < |k.list|
  }

  /** pNext runs through strictly ascending BtShared addresses. */
  predicate ValidConn(k: Conn) {
    && (forall i, j | 0 <= i < j < |k.list| :: k.list[i] < k.list[j])
    && ValidSlots(k, k.aDb)
  }

  predicate ValidConfig(cfg: seq<Conn>) {
    forall c | 0 <= c < |cfg| :: ValidConn(cfg[c])
  }

  /** How often Btree r is named in the first n slots. */
  function Tally(slots: seq<Slot>, r: nat, n: nat): nat
    requires n <= |slots|
  {
    if n == 0 then 0
    else Tally(slots, r, n - 1) + (if slots[n - 1] == Sharable(r) then 1 else 0)
  }

  // ---------- One step of one connection ----------

  /** The control part of a thread agrees with the shape of its connection. */
  predicate InRange(k: Conn, t: Thread) {
    && |t.locked| == |t.want| == |t.base| == |k.list|
    && ValidSlots(k, t.job.slots)
    && t.job.i <= |t.job.slots|
    && match t.pc {
      case Client | Walk => true
      case EnterTop(p) => p < |k.list| && AtSlot(t.job, true, p)
      case Try(p) => p < |k.list| && AtSlot(t.job, true, p)
      case Drop(p, q) => p < q <= |k.list| && AtSlot(t.job, true, p)
      case DropMark(p, q) => p < q < |k.list| && AtSlot(t.job, true, p)
      case Wait(p, q) => p <= q < |k.list| && AtSlot(t.job, true, p)
      case Claim(p, q, fast) => p <= q < |k.list| && (fast ==> p == q) && AtSlot(t.job, true, p)
      case Mark(p, q, fast) => p <= q < |k.list| && (fast ==> p == q) && AtSlot(t.job, true, p)
      case Relock(p, q) => p < q <= |k.list| && AtSlot(t.job, true, p)
      case LeaveTop(p) => p < |k.list| && AtSlot(t.job, false, p)
      case LeaveUnlock(p) => p < |k.list| && AtSlot(t.job, false, p)
      case LeaveMark(p) => p < |k.list| && AtSlot(t.job, false, p)
    }
  }

  predicate AtSlot(job: Job, entering: bool, p: nat) {
    job.entering == entering && job.i < |job.slots| && job.slots[job.i] == Sharable(p)
  }

  /** The address of the mutex that the next step tries, waits for or leaves; 0 when there is none. */
  function Target(k: Conn, t: Thread): nat
    requires InRange(k, t)
  {
    match t.pc
    case Try(p) => k.list[p]
    case Wait(p, q) => k.list[q]
    case _ => 0
  }

  /** Return from the current Enter or Leave to the loop over the slots. */
  function Return(t: Thread): Thread {
    t.(pc := Walk, job := t.job.(i := t.job.i + 1))
  }

  /** The thread after its next step.  won says whether that step gets the mutex at Target. */
  function Advance(k: Conn, t: Thread, won: bool): Thread
    requires InRange(k, t) && t.pc != Client
  {
    match t.pc
    case Walk =>
      if t.job.i == |t.job.slots| then t.(pc := Client)
      else (match t.job.slots[t.job.i]
            case Empty => Return(t)
            case Private => Return(t)
            case Sharable(p) => t.(pc := if t.job.entering then EnterTop(p) else LeaveTop(p)))
    case EnterTop(p) =>
      var t' := t.(want := t.want[p := t.want[p] + 1]);
      if t.locked[p] then Return(t') else t'.(pc := Try(p))
    case Try(p) => if won then t.(pc := Claim(p, p, true)) else t.(pc := Drop(p, p + 1))
    case Drop(p, q) =>
      if q == |k.list| then t.(pc := Wait(p, p))
      else if t.locked[q] then t.(pc := DropMark(p, q))
      else t.(pc := Drop(p, q + 1))
    case DropMark(p, q) => t.(pc := Drop(p, q + 1), locked := t.locked[q := false])
    case Wait(p, q) => t.(pc := Claim(p, q, false))
    case Claim(p, q, fast) => t.(pc := Mark(p, q, fast))
    case Mark(p, q, fast) =>
      var t' := t.(locked := t.locked[q := true]);
      if fast then Return(t') else t'.(pc := Relock(p, q + 1))
    case Relock(p, q) =>
      if q == |k.list| then Return(t)
      else if t.want[q] > 0 then t.(pc := Wait(p, q))
      else t.(pc := Relock(p, q + 1))
    case LeaveTop(p) =>
      var t' := t.(want := t.want[p := if t.want[p] > 0 then t.want[p] - 1 else 0]);
      if t'.want[p] == 0 then t'.(pc := LeaveUnlock(p)) else Return(t')
    case LeaveUnlock(p) => t.(pc := LeaveMark(p))
    case LeaveMark(p) => Return(t.(locked := t.locked[p := false]))
  }

  /** What that step does to the BtShared objects. */
  function StepEffect(k: Conn, t: Thread, won: bool): Effect
    requires InRange(k, t) && t.pc != Client
  {
    match t.pc
    case Try(p) => if won then Acquire(k.list[p]) else Nothing
    case Wait(p, q) => Acquire(k.list[q])
    case Drop(p, q) => if q < |k.list| && t.locked[q] then Release(k.list[q]) else Nothing
    case LeaveUnlock(p) => Release(k.list[p])
    case Claim(p, q, fast) => SetDb(k.list[q])
    case _ => Nothing
  }

  function Apply(s: State, c: nat, e: Effect): State {
    match e
    case Nothing => s
    case Acquire(a) => s.(owner := s.owner[a := c])
    case Release(a) => s.(owner := s.owner - {a})
    case SetDb(a) => s.(user := s.user[a := c])
  }

  predicate Shaped(cfg: seq<Conn>, s: State) {
    |s.threads| == |cfg| && forall c | 0 <= c < |cfg| :: InRange(cfg[c], s.threads[c])
  }

  /** Connection c is inside sqlite3_mutex_enter and the mutex is taken. */
  predicate Blocked(cfg: seq<Conn>, s: State, c: nat)
    requires Shaped(cfg, s)
  {
    c < |cfg| && s.threads[c].pc.Wait? && Target(cfg[c], s.threads[c]) in s.owner
  }

  /** What the calls that client code may begin require of wantToLock (the assert at line 132). */
  predicate MayBegin(k: Conn, t: Thread, job: Job) {
    && t.pc == Client
    && job.i == 0
    && ValidSlots(k, job.slots)
    && (!job.entering ==> forall r | 0 <= r < |t.want| :: Tally(job.slots, r, |job.slots|) <= t.want[r])
  }

  function Begin(s: State, c: nat, job: Job): State
    requires c < |s.threads|
  {
    var t := s.threads[c];
    s.(threads := s.threads[c := t.(pc := Walk, job := job, base := t.want)])
  }

  /** sqlite3_mutex_try gets a mutex only when it is free, but may fail even then (as it always
      does where the system has no such operation); sqlite3_mutex_enter waits until it gets it. */
  predicate MayWin(cfg: seq<Conn>, s: State, c: nat, won: bool)
    requires Shaped(cfg, s) && c < |cfg|
  {
    && (won ==> Target(cfg[c], s.threads[c]) !in s.owner)
    && (s.threads[c].pc.Wait? ==> won)
  }

  function Internal(cfg: seq<Conn>, s: State, c: nat, won: bool): State
    requires Shaped(cfg, s) && c < |cfg| && s.threads[c].pc != Client
  {
    var k, t := cfg[c], s.threads[c];
    Apply(s, c, StepEffect(k, t, won)).(threads := s.threads[c := Advance(k, t, won)])
  }

  /** Connection c takes one step from s to s'. */
  ghost predicate Step(cfg: seq<Conn>, s: State, s': State, c: nat)
    requires Shaped(cfg, s)
  {
    && c < |cfg|
    && (if s.threads[c].pc == Client
        then exists job :: MayBegin(cfg[c], s.threads[c], job) && s' == Begin(s, c, job)
        else exists won :: MayWin(cfg, s, c, won) && s' == Internal(cfg, s, c, won))
  }

  /** All mutexes free, no Btree wanted. */
  predicate Initial(cfg: seq<Conn>, s: State) {
    && s.owner == map[]
    && |s.threads| == |cfg|
    && forall c | 0 <= c < |cfg| :: IdleThread(cfg[c], s.threads[c])
  }

  predicate IdleThread(k: Conn, t: Thread) {
    && t.pc == Client
    && t.job == Job(true, [], 0)
    && |t.locked| == |t.want| == |k.list|
    && t.base == t.want
    && (forall r | 0 <= r < |k.list| :: !t.locked[r] && t.want[r] == 0)
  }

  /** A finite run: who[n] names the connection that takes step n. */
  ghost predicate IsRun(cfg: seq<Conn>, run: seq<State>, who: seq<nat>) {
    && |run| == |who| + 1
    && (forall n | 0 <= n < |run| :: Shaped(cfg, run[n]))
    && (forall n | 0 <= n < |who| :: StepAt(cfg, run, who, n))
  }

  ghost predicate StepAt(cfg: seq<Conn>, run: seq<State>, who: seq<nat>, n: nat)
    requires n < |who| && |run| == |who| + 1 && Shaped(cfg, run[n])
  {
    Step(cfg, run[n], run[n + 1], who[n])
  }

  ghost predicate StartsInitial(cfg: seq<Conn>, run: seq<State>) {
    run != [] && Initial(cfg, run[0])
  }

  // ---------- Questions about a state ----------

  /** Connection c holds the mutex of its r-th Btree. */
  predicate Holds(cfg: seq<Conn>, s: State, c: nat, r: nat)
    requires c < |cfg| && r < |cfg[c].list|
  {
    cfg[c].list[r] in s.owner && s.owner[cfg[c].list[r]] == c
  }

  /** sqlite3BtreeHoldsAllMutexes, for the slots of one job. */
  predicate HoldsAll(cfg: seq<Conn>, s: State, c: nat, slots: seq<Slot>)
    requires Shaped(cfg, s) && c < |cfg| && ValidSlots(cfg[c], slots)
  {
    forall i | 0 <= i < |slots| && slots[i].Sharable? ::
      s.threads[c].want[slots[i].idx] > 0 && Holds(cfg, s, c, slots[i].idx)
  }

  /** The asserts of btmutex.c that connection c evaluates in its next step. */
  predicate AssertsHold(cfg: seq<Conn>, s: State, c: nat)
    requires Shaped(cfg, s) && c < |cfg|
  {
    var k, t := cfg[c], s.threads[c];
    match t.pc
    case EnterTop(p) =>                       // lines 82, 83 and 90
      (t.locked[p] ==> t.want[p] > 0) && (t.locked[p] ==> DbIs(k, s, c, p))
    case Drop(p, q) =>                        // lines 114 and 43-46
      q < |k.list| ==> (t.locked[q] ==> t.want[q] > 0) && (t.locked[q] ==> Holds(cfg, s, c, q) && DbIs(k, s, c, q))
    case Wait(p, q) =>                        // lines 28 and 29
      !t.locked[q] && !Holds(cfg, s, c, q)
    case LeaveTop(p) => t.want[p] > 0         // line 132
    case LeaveUnlock(p) =>                    // lines 43-46
      t.locked[p] && Holds(cfg, s, c, p) && DbIs(k, s, c, p)
    case _ => true
  }

  predicate DbIs(k: Conn, s: State, c: nat, r: nat)
    requires r < |k.list|
  {
    k.list[r] in s.user && s.user[k.list[r]] == c
  }

  /** The Btree that the sqlite3BtreeEnter in progress is about, if there is one. */
  predicate InEnter(t: Thread, p: nat) {
    match t.pc
    case EnterTop(p') => p' == p
    case Try(p') => p' == p
    case Drop(p', q) => p' == p
    case DropMark(p', q) => p' == p
    case Wait(p', q) => p' == p
    case Claim(p', q, fast) => p' == p
    case Mark(p', q, fast) => p' == p
    case Relock(p', q) => p' == p
    case _ => false
  }
}
