/**
  What one call of the parser does, as a function of the live part of the stack: the specification
  that class LemonParser.Parser is proved against.
 */
module LemonDriver {
  import opened LemonTables
  import opened LemonGrammar

  /** An element of the stack.  major is the raw token, or the left-hand side of a rule. */
  datatype Entry = Entry(state: nat, major: nat, minor: Minor)

  /** What the parser does that can be seen from outside, or that moves a value. */
  datatype Event =
    | Start                                      // (re)initialisation
    | Call(tok: nat, minor: Minor)               // the parser is called with a token
    | Shift(e: Entry)                            // a token is pushed
    | Goto(e: Entry)                             // the result of a reduction is pushed
    | Reduce(rule: nat, args: seq<Entry>)        // a semantic action consumes its arguments
    | Destroy(e: Entry)                          // yy_destructor on a popped element
    | Overflow(major: nat, lost: Minor)          // stack overflow, and the value not pushed
    | Accept(value: Minor)                       // yy_accept, and the value of the start symbol
    | SyntaxError(tok: nat, minor: Minor)        // yy_syntax_error, then yy_destructor on the token

  /** The parser between two iterations: the elements above the bottom one, when there is one. */
  datatype Config = Config(started: bool, stack: seq<Entry>, errcnt: int, trace: seq<Event>)

  /** YYSTACKDEPTH and the semantic actions belong to the tables. */
  datatype Params = Params(t: Tables, depth: nat, sem: (nat, seq<Minor>) -> Minor)

  predicate ValidParams(p: Params) {
    WellFormed(p.t) && p.depth >= 1
  }

  const FRESH := Config(false, [], -1, [])

  function Top(stack: seq<Entry>): nat {
    if stack == [] then 0 else stack[|stack| - 1].state
  }

  function Minors(args: seq<Entry>): seq<Minor> {
    seq(|args|, i requires 0 <= i < |args| => args[i].minor)
  }

  /** Popping everything, from the top. */
  function DestroyAll(stack: seq<Entry>): seq<Event> {
    if stack == [] then [] else [Destroy(stack[|stack| - 1])] + DestroyAll(stack[..|stack| - 1])
  }

  /** yy_shift: push, or overflow and empty the stack. */
  function Push(p: Params, cfg: Config, e: Entry, pushed: Event): Config {
    if |cfg.stack| + 1 >= p.depth then
      cfg.(started := false, stack := [],
           trace := cfg.trace + DestroyAll(cfg.stack) + [Overflow(e.major, e.minor)])
    else
      cfg.(stack := cfg.stack + [e], trace := cfg.trace + [pushed])
  }

  /** What yy_reduce needs: enough elements to pop and a goto in the exposed state. */
  predicate CanReduce(t: Tables, stack: seq<Entry>, r: nat) {
    && r < |t.rules|
    && t.rules[r].nrhs <= |stack|
    && GotoDefined(t, Top(stack[..|stack| - t.rules[r].nrhs]), t.rules[r].lhs)
    && var act := FindReduceAction(t, Top(stack[..|stack| - t.rules[r].nrhs]), t.rules[r].lhs);
       act < t.nstate || act == t.AcceptAction()
  }

  /** yy_reduce. */
  function ReduceBy(p: Params, cfg: Config, r: nat): Config
    requires CanReduce(p.t, cfg.stack, r)
  {
    var n := |cfg.stack| - p.t.rules[r].nrhs;
    var base, args, lhs := cfg.stack[..n], cfg.stack[n..], p.t.rules[r].lhs;
    var value := p.sem(r, Minors(args));
    var act := FindReduceAction(p.t, Top(base), lhs);
    var popped := cfg.(stack := base, trace := cfg.trace + [Reduce(r, args)]);
    if act < p.t.nstate then Push(p, popped, Entry(act, lhs, value), Goto(Entry(act, lhs, value)))
    else cfg.(started := false, stack := [],
              trace := popped.trace + DestroyAll(base) + [Accept(value)])
  }

  /** One iteration of the driver loop on token tok; done when the loop is left after it. */
  datatype Outcome = Outcome(cfg: Config, done: bool)

  /** The code runs this iteration without leaving an array and without failing an assert. */
  predicate Runs(p: Params, cfg: Config, tok: nat)
    requires ValidParams(p)
  {
    && cfg.started
    && Top(cfg.stack) < p.t.nstate
    && var act := FindShiftAction(p.t, Top(cfg.stack), tok);
       if act < p.t.nstate then true
       else if act < p.t.nstate + |p.t.rules| then CanReduce(p.t, cfg.stack, act - p.t.nstate)
       else act == p.t.ErrorAction()
  }

  function Iterate(p: Params, cfg: Config, token: Token): Outcome
    requires ValidParams(p)
  {
    if !Runs(p, cfg, token.code) then Outcome(cfg, true)
    else
      var act := FindShiftAction(p.t, Top(cfg.stack), token.code);
      if act < p.t.nstate then
        var e := Entry(act, token.code, token.minor);
        var cfg' := Push(p, cfg, e, Shift(e));
        Outcome(cfg'.(errcnt := cfg'.errcnt - 1), true)
      else if act < p.t.nstate + |p.t.rules| then
        var cfg' := ReduceBy(p, cfg, act - p.t.nstate);
        Outcome(cfg', !cfg'.started)
      else
        Outcome(cfg.(trace := cfg.trace + [SyntaxError(token.code, token.minor)]), true)
  }

  /** At most n turns of a loop. */
  function Turns(step: Config -> Outcome, cfg: Config, n: nat): Outcome
    decreases n
  {
    if n == 0 then Outcome(cfg, false)
    else
      var out := step(cfg);
      if out.done then out else Turns(step, out.cfg, n - 1)
  }

  /** The body of the driver loop. */
  function Turn(p: Params, token: Token): Config -> Outcome
    requires ValidParams(p)
  {
    (cfg: Config) => Iterate(p, cfg, token)
  }

  function Loop(p: Params, cfg: Config, token: Token, n: nat): Outcome
    requires ValidParams(p)
  {
    Turns(Turn(p, token), cfg, n)
  }

  /** The (re)initialisation at the head of a call. */
  function Enter(cfg: Config, token: Token): Config {
    var c := if cfg.started then cfg
             else Config(true, [], -1, cfg.trace + [Start]);
    c.(trace := c.trace + [Call(token.code, token.minor)])
  }

  /** The call returns: its loop ends after finitely many iterations. */
  ghost predicate Halts(p: Params, cfg: Config, token: Token)
    requires ValidParams(p)
  {
    exists n: nat :: Loop(p, Enter(cfg, token), token, n).done
  }

  /** The effect of one call that returns. */
  ghost function Drive(p: Params, cfg: Config, token: Token): Config
    requires ValidParams(p) && Halts(p, cfg, token)
  {
    var n: nat :| Loop(p, Enter(cfg, token), token, n).done;
    Loop(p, Enter(cfg, token), token, n).cfg
  }

  /** The effect of a sequence of calls that all return. */
  ghost predicate AllHalt(p: Params, cfg: Config, tokens: seq<Token>)
    requires ValidParams(p)
    decreases |tokens|
  {
    tokens == [] ||
    (Halts(p, cfg, tokens[0]) && AllHalt(p, Drive(p, cfg, tokens[0]), tokens[1..]))
  }

  ghost function Feed(p: Params, cfg: Config, tokens: seq<Token>): Config
    requires ValidParams(p) && AllHalt(p, cfg, tokens)
    decreases |tokens|
  {
    if tokens == [] then cfg else Feed(p, Drive(p, cfg, tokens[0]), tokens[1..])
  }

  /** ParseFree. */
  function Free(cfg: Config): Config {
    cfg.(started := false, stack := [], trace := cfg.trace + DestroyAll(cfg.stack))
  }

  // ---------- One iteration, case by case ----------

  /** A token that is shifted with room on the stack, */
  lemma ShiftPushes(p: Params, cfg: Config, token: Token)
    requires ValidParams(p) && cfg.started && Top(cfg.stack) < p.t.nstate && |cfg.stack| + 1 < p.depth
    requires FindShiftAction(p.t, Top(cfg.stack), token.code) < p.t.nstate
    ensures var e := Entry(FindShiftAction(p.t, Top(cfg.stack), token.code), token.code, token.minor);
            Iterate(p, cfg, token) == Outcome(cfg.(stack := cfg.stack + [e], trace := cfg.trace + [Shift(e)],
                                                   errcnt := cfg.errcnt - 1), true)
  {
  }

  /** and without. */
  lemma ShiftOverflows(p: Params, cfg: Config, token: Token)
    requires ValidParams(p) && cfg.started && Top(cfg.stack) < p.t.nstate && |cfg.stack| + 1 >= p.depth
    requires FindShiftAction(p.t, Top(cfg.stack), token.code) < p.t.nstate
    ensures Iterate(p, cfg, token)
         == Outcome(Config(false, [], cfg.errcnt - 1,
                           cfg.trace + DestroyAll(cfg.stack) + [Overflow(token.code, token.minor)]), true)
  {
  }

  /** A reduction whose result is pushed, */
  lemma ReducePushes(p: Params, cfg: Config, r: nat, n: nat, e: Entry)
    requires cfg.started && CanReduce(p.t, cfg.stack, r) && n + p.t.rules[r].nrhs == |cfg.stack| && n + 1 < p.depth
    requires FindReduceAction(p.t, Top(cfg.stack[..n]), p.t.rules[r].lhs) == e.state < p.t.nstate
    requires e.major == p.t.rules[r].lhs && e.minor == p.sem(r, Minors(cfg.stack[n..]))
    ensures ReduceBy(p, cfg, r) == cfg.(stack := cfg.stack[..n] + [e],
                                        trace := cfg.trace + [Reduce(r, cfg.stack[n..])] + [Goto(e)])
  {
  }

  /** and one whose result overflows the stack. */
  lemma ReduceOverflows(p: Params, cfg: Config, r: nat, n: nat)
    requires CanReduce(p.t, cfg.stack, r) && n + p.t.rules[r].nrhs == |cfg.stack| && n + 1 >= p.depth
    requires FindReduceAction(p.t, Top(cfg.stack[..n]), p.t.rules[r].lhs) < p.t.nstate
    ensures var value := p.sem(r, Minors(cfg.stack[n..]));
            ReduceBy(p, cfg, r) ==
              Config(false, [], cfg.errcnt, cfg.trace + [Reduce(r, cfg.stack[n..])] + DestroyAll(cfg.stack[..n])
                                            + [Overflow(p.t.rules[r].lhs, value)])
  {
  }

  /** Either way. */
  lemma ReduceIs(p: Params, cfg: Config, r: nat, n: nat)
    requires CanReduce(p.t, cfg.stack, r) && n + p.t.rules[r].nrhs == |cfg.stack|
    ensures var base, args, lhs := cfg.stack[..n], cfg.stack[n..], p.t.rules[r].lhs;
            var value, act := p.sem(r, Minors(args)), FindReduceAction(p.t, Top(base), lhs);
            var popped := cfg.(stack := base, trace := cfg.trace + [Reduce(r, args)]);
            ReduceBy(p, cfg, r) ==
              if act < p.t.nstate then Push(p, popped, Entry(act, lhs, value), Goto(Entry(act, lhs, value)))
              else Config(false, [], cfg.errcnt, popped.trace + DestroyAll(base) + [Accept(value)])
  {
  }

  /** An iteration that reduces. */
  lemma TurnReduces(p: Params, cfg: Config, token: Token, r: nat)
    requires ValidParams(p) && cfg.started && Top(cfg.stack) < p.t.nstate && CanReduce(p.t, cfg.stack, r)
    requires FindShiftAction(p.t, Top(cfg.stack), token.code) == p.t.nstate + r
    ensures Iterate(p, cfg, token) == Outcome(ReduceBy(p, cfg, r), !ReduceBy(p, cfg, r).started)
  {
  }

  // ---------- Loops ----------

  lemma TurnsFirst(step: Config -> Outcome, cfg: Config, n: nat)
    ensures step(cfg).done ==> Turns(step, cfg, n + 1) == step(cfg)
    ensures !step(cfg).done ==> Turns(step, cfg, n + 1) == Turns(step, step(cfg).cfg, n)
  {
  }

  lemma {:induction false} TurnsStable(step: Config -> Outcome, cfg: Config, m: nat, n: nat)
    requires Turns(step, cfg, m).done && m <= n
    ensures Turns(step, cfg, n) == Turns(step, cfg, m)
    decreases m
  {
    if !step(cfg).done {
      TurnsStable(step, step(cfg).cfg, m - 1, n - 1);
    }
  }

  /** One turn more. */
  lemma {:induction false} TurnsOneMore(step: Config -> Outcome, cfg: Config, n: nat, c: Config)
    requires Turns(step, cfg, n) == Outcome(c, false)
    ensures Turns(step, cfg, n + 1) == step(c)
    decreases n
  {
    if n == 0 {
      TurnsFirst(step, cfg, 0);
    } else {
      TurnsOneMore(step, step(cfg).cfg, n - 1, c);
    }
  }

  /** What every turn keeps holds after any number of them; the last turn may leave something else. */
  lemma {:induction false} TurnsKeep(step: Config -> Outcome, inv: Config -> bool, post: Config -> bool,
                                     cfg: Config, n: nat)
    requires inv(cfg)
    requires forall c | inv(c) :: if step(c).done then post(step(c).cfg) else inv(step(c).cfg)
    ensures var out := Turns(step, cfg, n); if out.done then post(out.cfg) else inv(out.cfg)
    decreases n
  {
    if n > 0 && !step(cfg).done {
      TurnsKeep(step, inv, post, step(cfg).cfg, n - 1);
    }
  }

  /** How many iterations a call takes at most. */
  lemma DriveSteps(p: Params, cfg: Config, token: Token) returns (n: nat)
    requires ValidParams(p) && Halts(p, cfg, token)
    ensures Loop(p, Enter(cfg, token), token, n) == Outcome(Drive(p, cfg, token), true)
  {
    n :| Loop(p, Enter(cfg, token), token, n).done
         && Drive(p, cfg, token) == Loop(p, Enter(cfg, token), token, n).cfg;
  }

  lemma DriveIsLoop(p: Params, cfg: Config, token: Token, n: nat)
    requires ValidParams(p) && Loop(p, Enter(cfg, token), token, n).done
    ensures Halts(p, cfg, token) && Drive(p, cfg, token) == Loop(p, Enter(cfg, token), token, n).cfg
  {
    var m: nat :| Loop(p, Enter(cfg, token), token, m).done
                  && Drive(p, cfg, token) == Loop(p, Enter(cfg, token), token, m).cfg;
    var step, mid := Turn(p, token), Enter(cfg, token);
    assert Loop(p, mid, token, m).done && Loop(p, mid, token, n).done;
    assert Turns(step, mid, m).done;
    assert Turns(step, mid, n).done;
    if m <= n { TurnsStable(step, mid, m, n); } else { TurnsStable(step, mid, n, m); }
  }
}
