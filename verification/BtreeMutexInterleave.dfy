/** Connections that run the routines of btmutex.c side by side: their trails, interleaved as the mutexes allow,
    are a run of the step system, so the guarantees about all runs hold for them. */
module BtreeMutexInterleave {
  import opened BtreeMutexModel
  import opened BtreeMutexSafety
  import opened BtreeMutexTheorems
  import opened BtreeMutexCalls

  /** The trail of a connection, and which of its steps got the mutex they asked for. */
  datatype History = History(trail: seq<Progress>, wins: seq<bool>)

  ghost predicate Histories(cfg: seq<Conn>, hs: seq<History>) {
    |hs| == |cfg| && forall c | 0 <= c < |cfg| :: IsTrail(cfg[c], hs[c].trail, hs[c].wins)
  }

  /** How many of the first n steps connection c has taken. */
  function Taken(who: seq<nat>, n: nat, c: nat): nat
    requires n <= |who|
  {
    if n == 0 then 0 else Taken(who, n - 1, c) + (if who[n - 1] == c then 1 else 0)
  }

  /** The mutexes let the thread take its next step as it did. */
  predicate Allowed(k: Conn, t: Thread, owner: map<nat, nat>, won: bool) {
    InRange(k, t) && (won ==> Target(k, t) !in owner) && (t.pc.Wait? ==> won)
  }

  function EffectOf(k: Conn, t: Thread, won: bool): Effect
    requires InRange(k, t)
  {
    if t.pc == Client then Nothing else StepEffect(k, t, won)
  }

  /** Step n is the next one of connection who[n], and acts on the mutexes and on its own thread. */
  ghost predicate WovenAt(cfg: seq<Conn>, hs: seq<History>, run: seq<State>, who: seq<nat>, n: nat)
    requires n < |who| && |run| == |who| + 1 && Histories(cfg, hs)
  {
    var s, c := run[n], who[n];
    && c < |cfg| && |s.threads| == |cfg|
    && var i, h := Taken(who, n, c), hs[c];
       && i < |h.wins|
       && (h.trail[i].thread.pc == Client || Allowed(cfg[c], h.trail[i].thread, s.owner, h.wins[i]))
       && InRange(cfg[c], h.trail[i].thread)
       && run[n + 1] == Apply(s, c, EffectOf(cfg[c], h.trail[i].thread, h.wins[i]))
                        .(threads := s.threads[c := h.trail[i + 1].thread])
  }

  /** The histories, interleaved in the order of `who`. */
  ghost predicate Woven(cfg: seq<Conn>, hs: seq<History>, run: seq<State>, who: seq<nat>) {
    && Histories(cfg, hs) && |run| == |who| + 1
    && run[0].owner == map[] && |run[0].threads| == |cfg|
    && (forall c | 0 <= c < |cfg| :: run[0].threads[c] == hs[c].trail[0].thread)
    && (forall n | 0 <= n < |who| :: WovenAt(cfg, hs, run, who, n))
  }

  /** Every connection is where its own trail has got to. */
  lemma {:induction false} OnTrail(cfg: seq<Conn>, hs: seq<History>, run: seq<State>, who: seq<nat>, n: nat, c: nat)
    requires Woven(cfg, hs, run, who) && n < |run| && c < |cfg|
    ensures Taken(who, n, c) < |hs[c].trail| && |run[n].threads| == |cfg|
    ensures run[n].threads[c] == hs[c].trail[Taken(who, n, c)].thread
  {
    if n > 0 {
      OnTrail(cfg, hs, run, who, n - 1, c);
      assert WovenAt(cfg, hs, run, who, n - 1);
    }
  }

  lemma {:induction false} TrailInRange(k: Conn, h: History, i: nat)
    requires IsTrail(k, h.trail, h.wins) && i < |h.trail|
    ensures InRange(k, h.trail[i].thread)
  {
    if i > 0 {
      assert StepOk(k, h.trail, h.wins, i - 1);
      var t := h.trail[i - 1].thread;
      if t.pc != Client { AdvanceInRange(k, t, h.wins[i - 1]); }
    }
  }

  lemma WovenStep(cfg: seq<Conn>, hs: seq<History>, run: seq<State>, who: seq<nat>, n: nat)
    requires Woven(cfg, hs, run, who) && n < |who| && Shaped(cfg, run[n])
    ensures StepAt(cfg, run, who, n)
  {
    var s, c, i := run[n], who[n], Taken(who, n, who[n]);
    assert WovenAt(cfg, hs, run, who, n);
    OnTrail(cfg, hs, run, who, n, c);
    var h := hs[c];
    assert StepOk(cfg[c], h.trail, h.wins, i);
    if s.threads[c].pc == Client {
      var job :| MayBegin(cfg[c], s.threads[c], job) && h.trail[i + 1].thread == Started(s.threads[c], job);
      assert run[n + 1] == Begin(s, c, job);
    } else {
      assert MayWin(cfg, s, c, h.wins[i]) && run[n + 1] == Internal(cfg, s, c, h.wins[i]);
    }
  }

  /** What connections do side by side is a run of the step system. */
  lemma InterleavingIsRun(cfg: seq<Conn>, hs: seq<History>, run: seq<State>, who: seq<nat>)
    requires Woven(cfg, hs, run, who)
    ensures IsRun(cfg, run, who) && StartsInitial(cfg, run)
  {
    forall n | 0 <= n < |run| ensures Shaped(cfg, run[n]) {
      forall c | 0 <= c < |cfg| ensures |run[n].threads| == |cfg| && InRange(cfg[c], run[n].threads[c]) {
        OnTrail(cfg, hs, run, who, n, c);
        TrailInRange(cfg[c], hs[c], Taken(who, n, c));
      }
      SameCount(cfg, hs, run, who, n);
    }
    forall n | 0 <= n < |who| ensures StepAt(cfg, run, who, n) {
      WovenStep(cfg, hs, run, who, n);
    }
    assert forall c | 0 <= c < |cfg| :: IsTrail(cfg[c], hs[c].trail, hs[c].wins);
  }

  lemma {:induction false} SameCount(cfg: seq<Conn>, hs: seq<History>, run: seq<State>, who: seq<nat>, n: nat)
    requires Woven(cfg, hs, run, who) && n < |run|
    ensures |run[n].threads| == |cfg|
  {
    if n > 0 {
      SameCount(cfg, hs, run, who, n - 1);
      assert WovenAt(cfg, hs, run, who, n - 1);
    }
  }

  /** So no two connections that execute these routines are ever both inside the mutex of one BtShared, and a
      blocked one always leads to one that can go on. */
  lemma SideBySide(cfg: seq<Conn>, hs: seq<History>, run: seq<State>, who: seq<nat>, n: nat, c: nat)
    returns (path: seq<nat>)
    requires ValidConfig(cfg) && Woven(cfg, hs, run, who) && n < |run| && c < |cfg|
    ensures Shaped(cfg, run[n]) && AssertsHold(cfg, run[n], c)
    ensures forall r, d, u | 0 <= r < |cfg[c].list| && 0 <= d < |cfg| && d != c && 0 <= u < |cfg[d].list|
                             && cfg[c].list[r] == cfg[d].list[u]
                             && run[n].threads[c].pc.Client? && run[n].threads[d].pc.Client? ::
              run[n].threads[c].want[r] == 0 || run[n].threads[d].want[u] == 0
    ensures Blocked(cfg, run[n], c) ==>
              WaitPath(cfg, run[n], path) && path[0] == c && path[|path| - 1] < |cfg|
              && !Blocked(cfg, run[n], path[|path| - 1]) && CanProgress(cfg, run[n], path[|path| - 1])
  {
    InterleavingIsRun(cfg, hs, run, who);
    NoAssertFails(cfg, run, who, n, c);
    forall r, d, u | 0 <= r < |cfg[c].list| && 0 <= d < |cfg| && d != c && 0 <= u < |cfg[d].list|
                     && cfg[c].list[r] == cfg[d].list[u]
                     && run[n].threads[c].pc.Client? && run[n].threads[d].pc.Client?
      ensures run[n].threads[c].want[r] == 0 || run[n].threads[d].want[u] == 0
    {
      MutualExclusion(cfg, run, who, n, c, r, d, u);
    }
    path := [];
    if Blocked(cfg, run[n], c) { path := DeadlockFree(cfg, run, who, n, c); }
  }
}
