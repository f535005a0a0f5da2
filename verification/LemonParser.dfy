/** The parser object and its routines, as in sqlcipher/lempar.c and sqlcipher/parse.c. */
module LemonParser {
  import opened LemonTables
  import opened LemonGrammar
  import opened LemonDriver
  import opened LemonSoundness

  class Parser {
    const p: Params
    const ndebug: bool            // whether the program is compiled with NDEBUG
    ghost const g: Grammar
    ghost const ct: Cert

    var yyidx: int
    var yyerrcnt: int
    var yystack: array<Entry>
    ghost var trace: seq<Event>   // what has been done to the outside world

    /** The array has YYSTACKDEPTH elements, yyidx is in range, and the bottom element is state 0. */
    ghost predicate Wired()
      reads this, yystack
    {
      && ValidParams(p)
      && yystack.Length == p.depth
      && -1 <= yyidx < p.depth
      && (yyidx >= 0 ==> yystack[0].state == 0)
    }

    /** The live part of the parser: nothing above yyidx, and of the bottom element only that it
        is there. */
    ghost function View(): Config
      requires Wired()
      reads this, yystack
    {
      Config(yyidx >= 0, if yyidx >= 0 then yystack[1..yyidx + 1] else [], yyerrcnt, trace)
    }

    ghost predicate Valid()
      reads this, yystack
    {
      Wired() && Certified(g, p.t, ct) && Sound(g, p, ct, View())
    }

    /** ParseAlloc: neither the stack nor yyerrcnt is initialised. */
    constructor (p: Params, ndebug: bool, stack: array<Entry>, errcnt: int, ghost g: Grammar, ghost ct: Cert)
      requires ValidParams(p) && Certified(g, p.t, ct) && stack.Length == p.depth
      ensures Valid() && yystack == stack
      ensures View() == Config(false, [], errcnt, [])
      ensures this.p == p && this.ndebug == ndebug
    {
      this.p, this.ndebug, this.g, this.ct := p, ndebug, g, ct;
      yyidx, yyerrcnt, yystack, trace := -1, errcnt, stack, [];
    }

    /** yy_pop_parser_stack.  The bottom element has major 0, for which yy_destructor does nothing. */
    method PopParserStack()
      requires Wired() && yyidx >= 0
      modifies this`yyidx, this`trace
      ensures Wired() && yyidx == old(yyidx) - 1
      ensures trace == old(trace) + (if old(yyidx) > 0 then [Destroy(yystack[old(yyidx)])] else [])
    {
      if yyidx > 0 {
        trace := trace + [Destroy(yystack[yyidx])];
      }
      yyidx := yyidx - 1;
    }

    /** The loop that empties the stack. */
    method PopAll()
      requires Wired()
      modifies this`yyidx, this`trace
      ensures Wired() && yyidx == -1
      ensures trace == old(trace) + DestroyAll(old(View()).stack)
    {
      ghost var stack := View().stack;
      while yyidx >= 0
        invariant Wired() && yystack == old(yystack)
        invariant trace + DestroyAll(View().stack) == old(trace) + DestroyAll(stack)
      {
        ghost var was, n := yystack[..], yyidx;
        if n > 0 {
          DestroyTop(trace, View().stack);
          LiveBelow(was, n, 1);
        }
        PopParserStack();
      }
    }

    /** ParseFree. */
    method Free()
      requires Wired()
      modifies this`yyidx, this`trace
      ensures Wired() && View() == LemonDriver.Free(old(View()))
    {
      PopAll();
    }

    /** yyStackOverflow, called by yy_shift after it has moved yyidx past the end. */
    method StackOverflow(major: nat, minor: Minor)
      requires ValidParams(p) && yystack.Length == p.depth && yyidx == p.depth && yystack[0].state == 0
      modifies this`yyidx, this`trace
      ensures Wired() && yyidx == -1
      ensures trace == old(trace) + DestroyAll(old(yystack[1..yyidx])) + [Overflow(major, minor)]
    {
      yyidx := yyidx - 1;
      PopAll();
      trace := trace + [Overflow(major, minor)];
    }

    /** yy_shift. */
    method Shift(newState: nat, major: nat, minor: Minor, ghost pushed: Event)
      requires Wired() && yyidx >= 0
      modifies this`yyidx, this`trace, yystack
      ensures Wired() && View() == Push(p, old(View()), Entry(newState, major, minor), pushed)
    {
      yyidx := yyidx + 1;
      if yyidx >= p.depth {
        StackOverflow(major, minor);
        return;
      }
      yystack[yyidx] := Entry(newState, major, minor);
      trace := trace + [pushed];
      assert yystack[1..yyidx + 1] == old(yystack[1..yyidx + 1]) + [Entry(newState, major, minor)];
    }

    /** yy_accept. */
    method YyAccept(value: Minor)
      requires Wired()
      modifies this`yyidx, this`trace
      ensures Wired() && yyidx == -1
      ensures trace == old(trace) + DestroyAll(old(View()).stack) + [Accept(value)]
    {
      PopAll();
      trace := trace + [Accept(value)];
    }

    /** The right-hand side of a rule is popped and handed to the semantic action. */
    method PopArgs(ruleno: nat, size: nat) returns (args: seq<Entry>)
      requires Wired() && size <= yyidx
      modifies this`yyidx, this`trace
      ensures Wired() && yyidx == old(yyidx) - size
      ensures var stack := old(View()).stack;
              && args == stack[|stack| - size..]
              && View() == old(View()).(stack := stack[..|stack| - size],
                                        trace := old(trace) + [LemonDriver.Event.Reduce(ruleno, args)])
              && yystack[yyidx].state == Top(stack[..|stack| - size])
    {
      LiveBelow(yystack[..], yyidx, size);
      args := yystack[yyidx - size + 1..yyidx + 1];
      trace := trace + [LemonDriver.Event.Reduce(ruleno, args)];
      yyidx := yyidx - size;
    }

    /** yy_reduce.  With NDEBUG the result overwrites the lowest popped element in place, without
        the overflow test; without it, it goes through yy_shift.  The effect is the same. */
    method Reduce(ruleno: nat)
      requires Wired() && yyidx >= 0 && CanReduce(p.t, View().stack, ruleno)
      modifies this`yyidx, this`trace, yystack
      ensures Wired() && View() == ReduceBy(p, old(View()), ruleno)
    {
      ghost var cfg := View();
      var lhs, size := p.t.rules[ruleno].lhs, p.t.rules[ruleno].nrhs;
      ReduceIs(p, cfg, ruleno, |cfg.stack| - size);
      var args := PopArgs(ruleno, size);
      GotoThere(p.t, cfg.stack, ruleno, yystack[yyidx].state);
      var value := p.sem(ruleno, Minors(args));
      var act := FindReduceAction(p.t, yystack[yyidx].state, lhs);
      if act < p.t.nstate {
        PushResult(Entry(act, lhs, value), size);
      } else {
        YyAccept(value);
      }
    }

    /** The result of a reduction that has popped `size` entries. */
    method PushResult(e: Entry, size: nat)
      requires Wired() && yyidx >= 0 && (size > 0 ==> yyidx + 1 < p.depth)
      modifies this`yyidx, this`trace, yystack
      ensures Wired() && View() == Push(p, old(View()), e, Goto(e))
    {
      if ndebug && size > 0 {
        ghost var base := View().stack;
        yyidx := yyidx + 1;
        yystack[yyidx] := e;
        trace := trace + [Goto(e)];
        assert View().stack == base + [e];
      } else {
        Shift(e.state, e.major, e.minor, Goto(e));
      }
    }

    /** The body of the driver loop; false stands for yymajor==YYNOCODE. */
    method Iteration(token: Token) returns (pending: bool)
      requires Wired() && yyidx >= 0 && Runs(p, View(), token.code)
      modifies this`yyidx, this`yyerrcnt, this`trace, yystack
      ensures Wired() && View() == Iterate(p, old(View()), token).cfg
      ensures (pending && yyidx >= 0) == !Iterate(p, old(View()), token).done
    {
      ghost var cfg := View();
      assert yystack[yyidx].state == Top(cfg.stack);
      var act := FindShiftAction(p.t, yystack[yyidx].state, token.code);
      pending := true;
      if act < p.t.nstate {
        Shift(act, token.code, token.minor, LemonDriver.Shift(Entry(act, token.code, token.minor)));
        yyerrcnt := yyerrcnt - 1;
        pending := false;
      } else if act < p.t.nstate + |p.t.rules| {
        Reduce(act - p.t.nstate);
      } else {
        assert act == p.t.ErrorAction();
        trace := trace + [SyntaxError(token.code, token.minor)];
        pending := false;
      }
    }

    /** The (re)initialisation at the head of Parse. */
    method Begin(token: Token)
      requires Wired()
      modifies this`yyidx, this`yyerrcnt, this`trace, yystack
      ensures Wired() && View() == Enter(old(View()), token)
    {
      if yyidx < 0 {
        yyidx := 0;
        yyerrcnt := -1;
        yystack[0] := yystack[0].(state := 0, major := 0);
        trace := trace + [Start];
      }
      trace := trace + [Call(token.code, token.minor)];
    }

    /** Parse: the driver.  It is proved for the calls that return. */
    method Parse(token: Token)
      requires Valid() && token.code < p.t.ntoken && Halts(p, View(), token)
      modifies this`yyidx, this`yyerrcnt, this`trace, yystack
      ensures Valid() && View() == Drive(p, old(View()), token)
    {
      DriveSound(g, p, ct, View(), token);
      ghost var plan := MakePlan(g, p, ct, View(), token);
      RunLoop(token, plan);
    }

    /** The statements of Parse, along the configurations that the loop goes through. */
    method RunLoop(token: Token, ghost plan: seq<Config>)
      requires Wired() && IsPlan(p, token, plan) && plan[0] == Enter(View(), token)
      modifies this`yyidx, this`yyerrcnt, this`trace, yystack
      ensures Wired() && View() == plan[|plan| - 1]
    {
      Begin(token);
      ghost var k := 0;
      var pending := true;
      while pending && yyidx >= 0
        invariant Wired() && yystack == old(yystack)
        invariant 0 <= k < |plan| && View() == plan[k]
        invariant pending && yyidx >= 0 <==> k < |plan| - 1
        decreases |plan| - k
      {
        assert PlanAt(p, token, plan, k);
        pending := Iteration(token);
        k := k + 1;
      }
    }

    /** A sequence of calls, as the tokenizer loop makes them. */
    method ParseAll(tokens: seq<Token>)
      requires Valid() && TokensOk(p.t, tokens) && AllHalt(p, View(), tokens)
      modifies this`yyidx, this`yyerrcnt, this`trace, yystack
      ensures Valid() && View() == Feed(p, old(View()), tokens)
    {
      for i := 0 to |tokens|
        invariant Valid() && yystack == old(yystack)
        invariant AllHalt(p, View(), tokens[i..])
        invariant Feed(p, View(), tokens[i..]) == Feed(p, old(View()), tokens)
      {
        assert tokens[i..][0] == tokens[i] && tokens[i..][1..] == tokens[i + 1..];
        Parse(tokens[i]);
      }
    }
  }

  lemma GotoThere(t: Tables, stack: seq<Entry>, r: nat, s: nat)
    requires CanReduce(t, stack, r) && s == Top(stack[..|stack| - t.rules[r].nrhs])
    ensures GotoDefined(t, s, t.rules[r].lhs)
  {
  }

  /** The live part of the array, when `size` elements have been popped. */
  lemma LiveBelow(a: seq<Entry>, idx: nat, size: nat)
    requires size <= idx < |a| && a[0].state == 0
    ensures var stack := a[1..idx + 1];
            && stack[..idx - size] == a[1..idx - size + 1] && stack[idx - size..] == a[idx - size + 1..idx + 1]
            && a[idx - size].state == Top(stack[..idx - size])
  {
  }

  lemma DestroyTop(tr: seq<Event>, stack: seq<Entry>)
    requires stack != []
    ensures tr + DestroyAll(stack) == tr + [Destroy(stack[|stack| - 1])] + DestroyAll(stack[..|stack| - 1])
  {
    Assoc(tr, [Destroy(stack[|stack| - 1])], DestroyAll(stack[..|stack| - 1]));
  }

  lemma Assoc(a: seq<Event>, b: seq<Event>, c: seq<Event>)
    ensures a + (b + c) == a + b + c
  {
  }

  /** The k-th configuration is followed by the next one, and the loop goes on up to the last. */
  ghost predicate PlanAt(p: Params, token: Token, plan: seq<Config>, k: nat)
    requires ValidParams(p) && k + 1 < |plan|
  {
    && Runs(p, plan[k], token.code)
    && Iterate(p, plan[k], token) == Outcome(plan[k + 1], k + 2 == |plan|)
  }

  ghost predicate IsPlan(p: Params, token: Token, plan: seq<Config>)
    requires ValidParams(p)
  {
    |plan| >= 2 && forall k | 0 <= k < |plan| - 1 :: PlanAt(p, token, plan, k)
  }

  lemma MakePlan(g: Grammar, p: Params, ct: Cert, cfg: Config, token: Token) returns (plan: seq<Config>)
    requires ValidParams(p) && Certified(g, p.t, ct) && token.code < p.t.ntoken
    requires Sound(g, p, ct, cfg) && Halts(p, cfg, token)
    ensures IsPlan(p, token, plan)
    ensures plan[0] == Enter(cfg, token) && plan[|plan| - 1] == Drive(p, cfg, token)
  {
    var n := DriveSteps(p, cfg, token);
    plan := PlanFrom(Turn(p, token), Enter(cfg, token), n);
    EnterMidCall(g, p, ct, cfg, token);
    PlanRuns(g, p, ct, token, plan);
  }

  /** The configurations that a loop goes through. */
  ghost predicate Follows(step: Config -> Outcome, plan: seq<Config>) {
    |plan| >= 2 && forall k | 0 <= k < |plan| - 1 :: step(plan[k]) == Outcome(plan[k + 1], k + 2 == |plan|)
  }

  lemma {:induction false} PlanFrom(step: Config -> Outcome, cfg: Config, n: nat) returns (plan: seq<Config>)
    requires Turns(step, cfg, n).done
    ensures Follows(step, plan) && plan[0] == cfg && plan[|plan| - 1] == Turns(step, cfg, n).cfg
    decreases n
  {
    var out := step(cfg);
    if out.done {
      plan := [cfg, out.cfg];
    } else {
      var rest := PlanFrom(step, out.cfg, n - 1);
      plan := [cfg] + rest;
      forall k | 0 <= k < |plan| - 1 ensures step(plan[k]) == Outcome(plan[k + 1], k + 2 == |plan|) {
        if k > 0 { assert step(rest[k - 1]) == Outcome(rest[k], k + 1 == |rest|); }
      }
    }
  }

  /** Under the certificate each turn of the loop runs without trouble. */
  lemma PlanRuns(g: Grammar, p: Params, ct: Cert, token: Token, plan: seq<Config>)
    requires ValidParams(p) && Certified(g, p.t, ct) && token.code < p.t.ntoken
    requires Follows(Turn(p, token), plan) && MidCall(g, p, ct, plan[0], token)
    ensures IsPlan(p, token, plan)
  {
    forall k | 0 <= k < |plan| - 1 ensures PlanAt(p, token, plan, k) {
      PlanMid(g, p, ct, token, plan, k);
      NeverStuck(g, p, ct, plan[k], token);
      assert Turn(p, token)(plan[k]) == Outcome(plan[k + 1], k + 2 == |plan|);
    }
  }

  lemma {:induction false} PlanMid(g: Grammar, p: Params, ct: Cert, token: Token, plan: seq<Config>, k: nat)
    requires ValidParams(p) && Certified(g, p.t, ct) && token.code < p.t.ntoken && k + 1 < |plan|
    requires Follows(Turn(p, token), plan) && MidCall(g, p, ct, plan[0], token)
    ensures MidCall(g, p, ct, plan[k], token)
  {
    if k > 0 {
      PlanMid(g, p, ct, token, plan, k - 1);
      assert Turn(p, token)(plan[k - 1]) == Outcome(plan[k], false);
      IterateSound(g, p, ct, plan[k - 1], token);
    }
  }
}
