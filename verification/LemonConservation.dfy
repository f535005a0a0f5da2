/** Where the values on the stack go, and what a parser's future depends on. */
module LemonConservation {
  import opened LemonTables
  import opened Names
  import opened LemonGrammar
  import opened LemonDriver

  // ---------- Every element that is pushed leaves exactly once ----------

  /** What an event does to the stack: a reduction must take exactly the topmost elements, and a
      destructor call the topmost one. */
  function After(st: seq<Entry>, event: Event): Option<seq<Entry>> {
    match event
    case Start => if st == [] then Some([]) else None
    case Shift(e) => Some(st + [e])
    case Goto(e) => Some(st + [e])
    case Reduce(_, args) =>
      if |args| <= |st| && st[|st| - |args|..] == args then Some(st[..|st| - |args|]) else None
    case Destroy(e) =>
      if |st| > 0 && st[|st| - 1] == e then Some(st[..|st| - 1]) else None
    case _ => Some(st)
  }

  /** The stack that the events of a trace lead to; None when the trace does not balance. */
  function Replay(tr: seq<Event>): Option<seq<Entry>> {
    if tr == [] then Some([])
    else
      match Replay(tr[..|tr| - 1])
      case None => None
      case Some(st) => After(st, tr[|tr| - 1])
  }

  lemma ReplayOne(tr: seq<Event>, e: Event)
    ensures Replay(tr + [e]) == match Replay(tr) case None => None case Some(st) => After(st, e)
  {
    assert (tr + [e])[..|tr + [e]| - 1] == tr;
  }

  lemma {:induction false} ReplayDestroyAll(tr: seq<Event>, stack: seq<Entry>)
    requires Replay(tr) == Some(stack)
    ensures Replay(tr + DestroyAll(stack)) == Some([])
    decreases |stack|
  {
    if stack == [] {
      assert tr + DestroyAll(stack) == tr;
    } else {
      var e := Destroy(stack[|stack| - 1]);
      ReplayOne(tr, e);
      ReplayDestroyAll(tr + [e], stack[..|stack| - 1]);
      assert tr + [e] + DestroyAll(stack[..|stack| - 1]) == tr + DestroyAll(stack);
    }
  }

  /** The events account for the whole stack. */
  predicate Balanced(cfg: Config) {
    Replay(cfg.trace) == Some(cfg.stack) && (!cfg.started ==> cfg.stack == [])
  }

  lemma PushBalanced(p: Params, cfg: Config, e: Entry, pushed: Event)
    requires Balanced(cfg) && cfg.started && (pushed == Shift(e) || pushed == Goto(e))
    ensures Balanced(Push(p, cfg, e, pushed))
  {
    if |cfg.stack| + 1 >= p.depth {
      ReplayDestroyAll(cfg.trace, cfg.stack);
      ReplayOne(cfg.trace + DestroyAll(cfg.stack), Overflow(e.major, e.minor));
    } else {
      ReplayOne(cfg.trace, pushed);
    }
  }

  /** The elements that a reduction takes are gone from the stack. */
  lemma PopBalanced(cfg: Config, r: nat, n: nat)
    requires Balanced(cfg) && cfg.started && n <= |cfg.stack|
    ensures Balanced(cfg.(stack := cfg.stack[..n], trace := cfg.trace + [Reduce(r, cfg.stack[n..])]))
  {
    ReplayOne(cfg.trace, Reduce(r, cfg.stack[n..]));
  }

  lemma AcceptBalanced(cfg: Config, value: Minor)
    requires Balanced(cfg)
    ensures Replay(cfg.trace + DestroyAll(cfg.stack) + [Accept(value)]) == Some([])
  {
    ReplayDestroyAll(cfg.trace, cfg.stack);
    ReplayOne(cfg.trace + DestroyAll(cfg.stack), Accept(value));
  }

  lemma ReduceBalanced(p: Params, cfg: Config, r: nat)
    requires Balanced(cfg) && cfg.started && CanReduce(p.t, cfg.stack, r)
    ensures Balanced(ReduceBy(p, cfg, r))
  {
    var n := |cfg.stack| - p.t.rules[r].nrhs;
    var base, args, lhs := cfg.stack[..n], cfg.stack[n..], p.t.rules[r].lhs;
    var value := p.sem(r, Minors(args));
    var act := FindReduceAction(p.t, Top(base), lhs);
    var popped := cfg.(stack := base, trace := cfg.trace + [Reduce(r, args)]);
    PopBalanced(cfg, r, n);
    if act < p.t.nstate {
      PushBalanced(p, popped, Entry(act, lhs, value), Goto(Entry(act, lhs, value)));
    } else {
      AcceptBalanced(popped, value);
    }
  }

  lemma ShiftBalanced(p: Params, cfg: Config, token: Token)
    requires ValidParams(p) && Balanced(cfg) && cfg.started && Top(cfg.stack) < p.t.nstate
    requires FindShiftAction(p.t, Top(cfg.stack), token.code) < p.t.nstate
    ensures Balanced(Iterate(p, cfg, token).cfg)
  {
    var e := Entry(FindShiftAction(p.t, Top(cfg.stack), token.code), token.code, token.minor);
    var cfg' := Push(p, cfg, e, Shift(e));
    PushBalanced(p, cfg, e, Shift(e));
    if |cfg.stack| + 1 < p.depth { ShiftPushes(p, cfg, token); } else { ShiftOverflows(p, cfg, token); }
    BalancedCount(cfg', cfg'.(errcnt := cfg'.errcnt - 1));
  }

  /** The error count does not matter. */
  lemma BalancedCount(a: Config, b: Config)
    requires Balanced(a) && b == a.(errcnt := b.errcnt)
    ensures Balanced(b)
  {
  }

  lemma IterateBalanced(p: Params, cfg: Config, token: Token)
    requires ValidParams(p) && Balanced(cfg)
    ensures Balanced(Iterate(p, cfg, token).cfg)
  {
    if Runs(p, cfg, token.code) {
      var act := FindShiftAction(p.t, Top(cfg.stack), token.code);
      if act < p.t.nstate {
        ShiftBalanced(p, cfg, token);
      } else if act < p.t.nstate + |p.t.rules| {
        ReduceBalanced(p, cfg, act - p.t.nstate);
      } else {
        ReplayOne(cfg.trace, SyntaxError(token.code, token.minor));
      }
    }
  }

  lemma LoopBalanced(p: Params, cfg: Config, token: Token, n: nat)
    requires ValidParams(p) && Balanced(cfg)
    ensures Balanced(Loop(p, cfg, token, n).cfg)
  {
    var step := Turn(p, token);
    forall c | Balanced(c) ensures Balanced(step(c).cfg) {
      IterateBalanced(p, c, token);
    }
    TurnsKeep(step, Balanced, Balanced, cfg, n);
  }

  lemma DriveBalanced(p: Params, cfg: Config, token: Token)
    requires ValidParams(p) && Halts(p, cfg, token) && Balanced(cfg)
    ensures Balanced(Drive(p, cfg, token))
  {
    var n: nat :| Loop(p, Enter(cfg, token), token, n).done
                  && Drive(p, cfg, token) == Loop(p, Enter(cfg, token), token, n).cfg;
    ReplayOne(cfg.trace, Start);
    ReplayOne(if cfg.started then cfg.trace else cfg.trace + [Start], Call(token.code, token.minor));
    LoopBalanced(p, Enter(cfg, token), token, n);
  }

  lemma {:induction false} FeedBalanced(p: Params, cfg: Config, tokens: seq<Token>)
    requires ValidParams(p) && AllHalt(p, cfg, tokens) && Balanced(cfg)
    ensures Balanced(Feed(p, cfg, tokens))
    decreases |tokens|
  {
    if tokens != [] {
      DriveBalanced(p, cfg, tokens[0]);
      FeedBalanced(p, Drive(p, cfg, tokens[0]), tokens[1..]);
    }
  }

  /** All elements pushed in a trace. */
  ghost function Pushed(tr: seq<Event>): multiset<Entry> {
    if tr == [] then multiset{} else Pushed(tr[..|tr| - 1]) + multiset(PushedBy(tr[|tr| - 1]))
  }

  function PushedBy(e: Event): seq<Entry> {
    match e
    case Shift(x) => [x]
    case Goto(x) => [x]
    case _ => []
  }

  /** All elements consumed by a semantic action or passed to a destructor. */
  ghost function Gone(tr: seq<Event>): multiset<Entry> {
    if tr == [] then multiset{} else Gone(tr[..|tr| - 1]) + multiset(GoneBy(tr[|tr| - 1]))
  }

  function GoneBy(e: Event): seq<Entry> {
    match e
    case Reduce(_, args) => args
    case Destroy(x) => [x]
    case _ => []
  }

  lemma AfterConserves(st: seq<Entry>, e: Event)
    requires After(st, e).Some?
    ensures multiset(st) + multiset(PushedBy(e)) == multiset(After(st, e).value) + multiset(GoneBy(e))
  {
    var st' := After(st, e).value;
    if e.Reduce? || e.Destroy? {
      assert st == st' + GoneBy(e);
    }
  }

  lemma Rebalance(p: multiset<Entry>, dp: multiset<Entry>, s: multiset<Entry>, s': multiset<Entry>,
                  g: multiset<Entry>, dg: multiset<Entry>)
    requires p == s + g && s + dp == s' + dg
    ensures p + dp == s' + (g + dg)
  {
    forall x: Entry ensures (p + dp)[x] == (s' + (g + dg))[x] {
      assert (s + dp)[x] == (s' + dg)[x];
    }
  }

  lemma {:induction false} ReplayConserves(tr: seq<Event>)
    requires Replay(tr).Some?
    ensures Pushed(tr) == multiset(Replay(tr).value) + Gone(tr)
  {
    if tr != [] {
      var front := tr[..|tr| - 1];
      ReplayConserves(front);
      var st, e := Replay(front).value, tr[|tr| - 1];
      AfterConserves(st, e);
      Rebalance(Pushed(front), multiset(PushedBy(e)), multiset(st), multiset(After(st, e).value),
                Gone(front), multiset(GoneBy(e)));
    }
  }

  /** Conservation: once the parser is freed, the stack events of its whole life balance, so the
      elements pushed are exactly those consumed or destroyed, each as often as it was pushed.
      This holds for all tables, certified or not. */
  lemma ValuesConserved(p: Params, tokens: seq<Token>)
    requires ValidParams(p) && AllHalt(p, FRESH, tokens)
    ensures var tr := Free(Feed(p, FRESH, tokens)).trace;
            Replay(tr) == Some([]) && Pushed(tr) == Gone(tr)
  {
    var cfg := Feed(p, FRESH, tokens);
    FeedBalanced(p, FRESH, tokens);
    ReplayDestroyAll(cfg.trace, cfg.stack);
    ReplayConserves(Free(cfg).trace);
  }

  // ---------- Only the live stack matters ----------

  predicate SameLive(a: Config, b: Config) {
    a.started == b.started && a.stack == b.stack
  }

  /** Going from a to a' and from b to b' appends the same events and ends with the same stack. */
  ghost predicate Alike(a: Config, a': Config, b: Config, b': Config) {
    && SameLive(a', b')
    && |a'.trace| >= |a.trace| && |b'.trace| >= |b.trace|
    && a'.trace[..|a.trace|] == a.trace && b'.trace[..|b.trace|] == b.trace
    && a'.trace[|a.trace|..] == b'.trace[|b.trace|..]
  }

  lemma AlikeChain(a: Config, a': Config, a'': Config, b: Config, b': Config, b'': Config)
    requires Alike(a, a', b, b') && Alike(a', a'', b', b'')
    ensures Alike(a, a'', b, b'')
  {
    assert a''.trace == a'.trace + a''.trace[|a'.trace|..];
    assert b''.trace == b'.trace + b''.trace[|b'.trace|..];
    assert a''.trace[|a.trace|..] == a'.trace[|a.trace|..] + a''.trace[|a'.trace|..];
    assert b''.trace[|b.trace|..] == b'.trace[|b.trace|..] + b''.trace[|b'.trace|..];
    assert a''.trace[..|a.trace|] == a'.trace[..|a.trace|];
    assert b''.trace[..|b.trace|] == b'.trace[..|b.trace|];
  }

  /** Two configurations with the same extension of their traces are alike. */
  lemma AlikeBy(a: Config, a': Config, b: Config, b': Config, more: seq<Event>)
    requires SameLive(a', b') && a'.trace == a.trace + more && b'.trace == b.trace + more
    ensures Alike(a, a', b, b')
  {
  }

  lemma PushAlike(p: Params, a: Config, b: Config, e: Entry, pushed: Event)
    requires SameLive(a, b)
    ensures Alike(a, Push(p, a, e, pushed), b, Push(p, b, e, pushed))
  {
    if |a.stack| + 1 >= p.depth {
      var more := DestroyAll(a.stack) + [Overflow(e.major, e.minor)];
      assert a.trace + DestroyAll(a.stack) + [Overflow(e.major, e.minor)] == a.trace + more;
      assert b.trace + DestroyAll(b.stack) + [Overflow(e.major, e.minor)] == b.trace + more;
      AlikeBy(a, Push(p, a, e, pushed), b, Push(p, b, e, pushed), more);
    } else {
      AlikeBy(a, Push(p, a, e, pushed), b, Push(p, b, e, pushed), [pushed]);
    }
  }

  lemma ReduceAlike(p: Params, a: Config, b: Config, r: nat)
    requires SameLive(a, b) && CanReduce(p.t, a.stack, r)
    ensures Alike(a, ReduceBy(p, a, r), b, ReduceBy(p, b, r))
  {
    var n := |a.stack| - p.t.rules[r].nrhs;
    var base, args, lhs := a.stack[..n], a.stack[n..], p.t.rules[r].lhs;
    var value := p.sem(r, Minors(args));
    var act := FindReduceAction(p.t, Top(base), lhs);
    var e := Entry(act, lhs, value);
    var head := [Reduce(r, args)];
    var a', b' := a.(stack := base, trace := a.trace + head), b.(stack := base, trace := b.trace + head);
    ReduceIs(p, a, r, n);
    ReduceIs(p, b, r, n);
    if act < p.t.nstate {
      AlikeBy(a, a', b, b', head);
      PushAlike(p, a', b', e, Goto(e));
      AlikeChain(a, a', Push(p, a', e, Goto(e)), b, b', Push(p, b', e, Goto(e)));
    } else {
      var more := head + DestroyAll(base) + [Accept(value)];
      assert a.trace + head + DestroyAll(base) + [Accept(value)] == a.trace + more;
      assert b.trace + head + DestroyAll(base) + [Accept(value)] == b.trace + more;
      AlikeBy(a, ReduceBy(p, a, r), b, ReduceBy(p, b, r), more);
    }
  }

  /** The error count does not matter. */
  lemma AlikeCount(a: Config, a': Config, a'': Config, b: Config, b': Config, b'': Config)
    requires Alike(a, a', b, b') && a'' == a'.(errcnt := a''.errcnt) && b'' == b'.(errcnt := b''.errcnt)
    ensures Alike(a, a'', b, b'')
  {
  }

  lemma ShiftAlike(p: Params, a: Config, b: Config, token: Token)
    requires ValidParams(p) && SameLive(a, b) && Runs(p, a, token.code)
    requires FindShiftAction(p.t, Top(a.stack), token.code) < p.t.nstate
    ensures AlikeOutcomes(a, Iterate(p, a, token), b, Iterate(p, b, token))
  {
    var e := Entry(FindShiftAction(p.t, Top(a.stack), token.code), token.code, token.minor);
    PushAlike(p, a, b, e, Shift(e));
    AlikeCount(a, Push(p, a, e, Shift(e)), Iterate(p, a, token).cfg,
               b, Push(p, b, e, Shift(e)), Iterate(p, b, token).cfg);
  }

  ghost predicate AlikeOutcomes(a: Config, u: Outcome, b: Config, v: Outcome) {
    Alike(a, u.cfg, b, v.cfg) && u.done == v.done
  }

  lemma TurnAlike(p: Params, a: Config, b: Config, token: Token, r: nat)
    requires ValidParams(p) && SameLive(a, b) && a.started && CanReduce(p.t, a.stack, r)
    requires Top(a.stack) < p.t.nstate && FindShiftAction(p.t, Top(a.stack), token.code) == p.t.nstate + r
    ensures AlikeOutcomes(a, Iterate(p, a, token), b, Iterate(p, b, token))
  {
    TurnReduces(p, a, token, r);
    TurnReduces(p, b, token, r);
    ReduceAlike(p, a, b, r);
  }

  lemma ErrorAlike(p: Params, a: Config, b: Config, token: Token)
    requires ValidParams(p) && SameLive(a, b) && Runs(p, a, token.code)
    requires FindShiftAction(p.t, Top(a.stack), token.code) == p.t.ErrorAction()
    ensures AlikeOutcomes(a, Iterate(p, a, token), b, Iterate(p, b, token))
  {
    AlikeBy(a, Iterate(p, a, token).cfg, b, Iterate(p, b, token).cfg, [SyntaxError(token.code, token.minor)]);
  }

  lemma StuckAlike(p: Params, a: Config, b: Config, token: Token)
    requires ValidParams(p) && SameLive(a, b) && !Runs(p, a, token.code)
    ensures AlikeOutcomes(a, Iterate(p, a, token), b, Iterate(p, b, token))
  {
    AlikeBy(a, a, b, b, []);
  }

  lemma IterateAlike(p: Params, a: Config, b: Config, token: Token)
    requires ValidParams(p) && SameLive(a, b)
    ensures AlikeOutcomes(a, Iterate(p, a, token), b, Iterate(p, b, token))
  {
    if !Runs(p, a, token.code) {
      StuckAlike(p, a, b, token);
    } else {
      var act := FindShiftAction(p.t, Top(a.stack), token.code);
      if act < p.t.nstate {
        ShiftAlike(p, a, b, token);
      } else if act < p.t.nstate + |p.t.rules| {
        TurnAlike(p, a, b, token, act - p.t.nstate);
      } else {
        ErrorAlike(p, a, b, token);
      }
    }
  }

  /** One iteration, and what follows it, are alike. */
  lemma OutcomesChain(a: Config, x: Outcome, u: Outcome, b: Config, y: Outcome, v: Outcome)
    requires AlikeOutcomes(a, x, b, y) && AlikeOutcomes(x.cfg, u, y.cfg, v)
    ensures AlikeOutcomes(a, u, b, v)
  {
    AlikeChain(a, x.cfg, u.cfg, b, y.cfg, v.cfg);
  }

  /** Where a turn begins. */
  predicate Begins(a: Config, b: Config) {
    SameLive(a, b)
  }

  lemma AlikeOnce(a: Config, x: Outcome, b: Config, y: Outcome)
    requires AlikeOutcomes(a, x, b, y)
    ensures Begins(x.cfg, y.cfg) && x.done == y.done
  {
  }

  lemma {:induction false} TurnsAlike(step: Config -> Outcome, a: Config, b: Config, n: nat)
    requires Begins(a, b)
    requires forall x, y {:trigger Begins(x, y)} | Begins(x, y) :: AlikeOutcomes(x, step(x), y, step(y))
    ensures AlikeOutcomes(a, Turns(step, a, n), b, Turns(step, b, n))
    decreases n
  {
    if n > 0 {
      var x, y := step(a), step(b);
      AlikeOnce(a, x, b, y);
      if !x.done {
        TurnsAlike(step, x.cfg, y.cfg, n - 1);
        OutcomesChain(a, x, Turns(step, x.cfg, n - 1), b, y, Turns(step, y.cfg, n - 1));
      }
    }
  }

  lemma LoopAlike(p: Params, a: Config, b: Config, token: Token, n: nat)
    requires ValidParams(p) && SameLive(a, b)
    ensures AlikeOutcomes(a, Loop(p, a, token, n), b, Loop(p, b, token, n))
  {
    var step := Turn(p, token);
    forall x, y | Begins(x, y) ensures AlikeOutcomes(x, step(x), y, step(y)) {
      IterateAlike(p, x, y, token);
    }
    assert Begins(a, b);
    TurnsAlike(step, a, b, n);
  }

  lemma DriveAlike(p: Params, a: Config, b: Config, token: Token)
    requires ValidParams(p) && SameLive(a, b) && (!a.started ==> a.stack == []) && Halts(p, a, token)
    ensures Halts(p, b, token)
    ensures Alike(a, Drive(p, a, token), b, Drive(p, b, token))
  {
    var a', b' := Enter(a, token), Enter(b, token);
    var call := Call(token.code, token.minor);
    var head := if a.started then [call] else [Start, call];
    assert a'.trace == a.trace + head && b'.trace == b.trace + head;
    AlikeBy(a, a', b, b', head);
    var n: nat :| Loop(p, a', token, n).done;
    LoopAlike(p, a', b', token, n);
    DriveIsLoop(p, a, token, n);
    DriveIsLoop(p, b, token, n);
    AlikeChain(a, a', Drive(p, a, token), b, b', Drive(p, b, token));
  }

  /** Re-initialisation independence: two parsers whose live stacks agree answer every sequence of
      tokens with the same events, whatever their past.  With b == FRESH: after an acceptance or an
      overflow the parser behaves as a new one. */
  lemma {:induction false} OnlyLiveStackMatters(p: Params, a: Config, b: Config, tokens: seq<Token>)
    requires ValidParams(p) && SameLive(a, b) && Balanced(a) && Balanced(b) && AllHalt(p, a, tokens)
    ensures AllHalt(p, b, tokens)
    ensures Alike(a, Feed(p, a, tokens), b, Feed(p, b, tokens))
    decreases |tokens|
  {
    if tokens != [] {
      DriveAlike(p, a, b, tokens[0]);
      DriveBalanced(p, a, tokens[0]);
      DriveBalanced(p, b, tokens[0]);
      var a', b' := Drive(p, a, tokens[0]), Drive(p, b, tokens[0]);
      OnlyLiveStackMatters(p, a', b', tokens[1..]);
      AlikeChain(a, a', Feed(p, a, tokens), b, b', Feed(p, b, tokens));
    }
  }
}
