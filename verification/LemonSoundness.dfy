/**
  Under the certificate the driver never leaves its arrays and never fails an assert, and whenever
  it accepts, the start symbol derives the tokens consumed.
 */
module LemonSoundness {
  import opened LemonTables
  import opened LemonGrammar
  import opened LemonDriver

  // ---------- The stack invariant ----------

  /** The state i elements above the bottom. */
  function StateAt(stack: seq<Entry>, i: nat): nat
    requires i <= |stack|
  {
    if i == 0 then 0 else stack[i - 1].state
  }

  /** What the certificate says about the state at height i is true of the stack. */
  ghost predicate LevelOk(g: Grammar, t: Tables, ct: Cert, stack: seq<Entry>, forest: seq<Tree>, i: nat)
    requires CertShape(t, ct) && |forest| == |stack| && i <= |stack|
  {
    var s := StateAt(stack, i);
    && s < t.nstate
    && (i > 0 ==> s > 0)
    && |ct.past[s]| <= i
    && forall k | 0 <= k < |ct.past[s]| ::
         Root(g, forest[i - 1 - k]) in ct.past[s][k] && StateAt(stack, i - 1 - k) in ct.below[s][k]
  }

  /** forest holds one derivation for each element, with the value that the element carries. */
  ghost predicate Explains(g: Grammar, p: Params, ct: Cert, stack: seq<Entry>, forest: seq<Tree>)
    requires CertShape(p.t, ct)
  {
    && |forest| == |stack|
    && AllDerive(g, p.t, forest)
    && (forall i | 0 <= i < |stack| :: Value(p.sem, forest[i]) == stack[i].minor)
    && (forall i | 0 <= i <= |stack| :: LevelOk(g, p.t, ct, stack, forest, i))
  }

  /** A level does not depend on what lies above it. */
  lemma LevelKept(g: Grammar, t: Tables, ct: Cert, stack: seq<Entry>, forest: seq<Tree>, e: Entry, tr: Tree, i: nat)
    requires CertShape(t, ct) && |forest| == |stack| && i <= |stack| && LevelOk(g, t, ct, stack, forest, i)
    ensures LevelOk(g, t, ct, stack + [e], forest + [tr], i)
  {
    assert forall j | 0 <= j <= |stack| :: StateAt(stack + [e], j) == StateAt(stack, j);
  }

  /** The new top level follows from its edge and the level below. */
  lemma LevelPushed(g: Grammar, t: Tables, ct: Cert, stack: seq<Entry>, forest: seq<Tree>, e: Entry, tr: Tree)
    requires CertShape(t, ct) && |forest| == |stack| && LevelOk(g, t, ct, stack, forest, |stack|)
    requires EdgeOk(t, ct, Top(stack), Root(g, tr), e.state)
    ensures LevelOk(g, t, ct, stack + [e], forest + [tr], |stack| + 1)
  {
    assert forall j | 0 <= j <= |stack| :: StateAt(stack + [e], j) == StateAt(stack, j);
  }

  lemma ExplainsPush(g: Grammar, p: Params, ct: Cert, stack: seq<Entry>, forest: seq<Tree>, e: Entry, tr: Tree)
    requires CertShape(p.t, ct) && Explains(g, p, ct, stack, forest)
    requires EdgeOk(p.t, ct, Top(stack), Root(g, tr), e.state)
    requires Derives(g, p.t, tr) && Value(p.sem, tr) == e.minor
    ensures Explains(g, p, ct, stack + [e], forest + [tr])
  {
    forall i | 0 <= i <= |stack| + 1 ensures LevelOk(g, p.t, ct, stack + [e], forest + [tr], i) {
      if i <= |stack| {
        LevelKept(g, p.t, ct, stack, forest, e, tr, i);
      } else {
        LevelPushed(g, p.t, ct, stack, forest, e, tr);
      }
    }
  }

  lemma ExplainsPop(g: Grammar, p: Params, ct: Cert, stack: seq<Entry>, forest: seq<Tree>, n: nat)
    requires CertShape(p.t, ct) && Explains(g, p, ct, stack, forest) && n <= |stack|
    ensures Explains(g, p, ct, stack[..n], forest[..n])
  {
    assert forall j | 0 <= j <= n :: StateAt(stack[..n], j) == StateAt(stack, j);
    forall i | 0 <= i <= n ensures LevelOk(g, p.t, ct, stack[..n], forest[..n], i) {
      assert LevelOk(g, p.t, ct, stack, forest, i);
    }
  }

  /** Stack safety of one reduction: enough elements, a goto in the exposed state, and the right
      grammar symbols on top. */
  lemma ReduceFits(g: Grammar, p: Params, ct: Cert, stack: seq<Entry>, forest: seq<Tree>, r: nat)
    requires Certified(g, p.t, ct) && Explains(g, p, ct, stack, forest)
    requires Top(stack) < p.t.nstate && r < |g.rules| && ReduceOk(g, p.t, ct, Top(stack), r)
    ensures CanReduce(p.t, stack, r)
    ensures var n := |stack| - p.t.rules[r].nrhs;
            && GotoOk(g, p.t, ct, Top(stack[..n]), g.rules[r].lhs)
            && RootsFit(g, forest[n..], g.rules[r].rhs)
            && (Top(stack[..n]) == 0 ==> n == 0)
  {
    var rhs, s := g.rules[r].rhs, Top(stack);
    assert LevelOk(g, p.t, ct, stack, forest, |stack|);
    var n := |stack| - |rhs|;
    assert Top(stack[..n]) == StateAt(stack, n);
    assert StateAt(stack, n) in Exposed(p.t, ct, s, |rhs|) by {
      if |rhs| > 0 { assert StateAt(stack, |stack| - 1 - (|rhs| - 1)) in ct.below[s][|rhs| - 1]; }
    }
    assert LevelOk(g, p.t, ct, stack, forest, n);
    forall i | 0 <= i < |rhs| ensures Root(g, forest[n..][i]) in rhs[i] {
      var k := |rhs| - 1 - i;
      assert Root(g, forest[|stack| - 1 - k]) in ct.past[s][k];
      assert ct.past[s][k] <= rhs[|rhs| - 1 - k];
    }
  }

  /** The derivation that a reduction builds. */
  lemma ReduceTree(g: Grammar, p: Params, ct: Cert, stack: seq<Entry>, forest: seq<Tree>, r: nat, n: nat)
    requires CertShape(p.t, ct) && Explains(g, p, ct, stack, forest) && n <= |stack| && r < |g.rules|
    requires RootsFit(g, forest[n..], g.rules[r].rhs)
    ensures var d := Node(r, forest[n..]);
            && Derives(g, p.t, d) && Root(g, d) == g.rules[r].lhs
            && Value(p.sem, d) == p.sem(r, Minors(stack[n..]))
            && Yields(forest[..n] + [d]) == Yields(forest)
  {
    var kids := forest[n..];
    var d := Node(r, kids);
    assert seq(|kids|, i requires 0 <= i < |kids| => Value(p.sem, kids[i])) == Minors(stack[n..]);
    assert forest[..n] + kids == forest;
    YieldsConcat(forest[..n], kids);
    YieldsConcat(forest[..n], [d]);
    YieldsOne(d);
  }

  // ---------- What the trace says ----------

  /** The tokens pushed since the last (re)initialisation. */
  function Pending(tr: seq<Event>): seq<Token> {
    if tr == [] then []
    else
      var front := tr[..|tr| - 1];
      match tr[|tr| - 1]
      case Start => []
      case Shift(e) => Pending(front) + [Token(e.major, e.minor)]
      case _ => Pending(front)
  }

  /** The tokens that the calls since the last (re)initialisation have brought, without those that
      were answered by a syntax error. */
  function Fed(tr: seq<Event>): seq<Token> {
    if tr == [] then []
    else
      var front := tr[..|tr| - 1];
      match tr[|tr| - 1]
      case Start => []
      case Call(tok, minor) => Fed(front) + [Token(tok, minor)]
      case SyntaxError(_, _) => if Fed(front) == [] then [] else Fed(front)[..|Fed(front)| - 1]
      case _ => Fed(front)
  }

  /** The Accept at position i of the trace is right: the start symbol derives all tokens pushed,
      with the value that the semantic actions computed, and these are all tokens brought but for
      the last one, which is the lookahead. */
  ghost predicate AcceptOk(g: Grammar, p: Params, tr: seq<Event>, i: nat)
    requires i < |tr| && tr[i].Accept?
  {
    && (exists d: Tree :: Derives(g, p.t, d) && Root(g, d) == g.start
                          && Yield(d) == Pending(tr[..i]) && Value(p.sem, d) == tr[i].value)
    && Fed(tr[..i]) != []
    && Pending(tr[..i]) == Fed(tr[..i])[..|Fed(tr[..i])| - 1]
  }

  ghost predicate TraceOk(g: Grammar, p: Params, tr: seq<Event>) {
    forall i | 0 <= i < |tr| && tr[i].Accept? :: AcceptOk(g, p, tr, i)
  }

  predicate Quiet(e: Event) {
    e.Goto? || e.Reduce? || e.Destroy? || e.Overflow?
  }

  /** Events that leave the token lists alone. */
  lemma {:induction false} QuietEvents(tr: seq<Event>, more: seq<Event>)
    requires forall e | e in more :: Quiet(e)
    ensures Pending(tr + more) == Pending(tr) && Fed(tr + more) == Fed(tr)
    decreases |more|
  {
    if more == [] {
      assert tr + more == tr;
    } else {
      QuietEvents(tr, more[..|more| - 1]);
      AppendOne(tr + more[..|more| - 1], more[|more| - 1]);
      assert tr + more == tr + more[..|more| - 1] + [more[|more| - 1]];
      assert Quiet(more[|more| - 1]);
    }
  }

  lemma TraceOkExtends(g: Grammar, p: Params, tr: seq<Event>, more: seq<Event>)
    requires TraceOk(g, p, tr) && forall e | e in more :: !e.Accept?
    ensures TraceOk(g, p, tr + more)
  {
    forall i | 0 <= i < |tr + more| && (tr + more)[i].Accept? ensures AcceptOk(g, p, tr + more, i) {
      assert (tr + more)[..i] == tr[..i];
    }
  }

  lemma AppendOne(tr: seq<Event>, e: Event)
    ensures (tr + [e])[..|tr + [e]| - 1] == tr && (tr + [e])[|tr + [e]| - 1] == e
  {
  }

  lemma DestroyAllQuiet(stack: seq<Entry>)
    ensures forall e | e in DestroyAll(stack) :: e.Destroy?
  {
  }

  // ---------- The invariant of the driver ----------

  /** Derivations for the stack, which together read the given tokens. */
  ghost predicate Parses(g: Grammar, p: Params, ct: Cert, stack: seq<Entry>, tokens: seq<Token>)
    requires CertShape(p.t, ct)
  {
    exists forest :: Explains(g, p, ct, stack, forest) && Yields(forest) == tokens
  }

  /** Within a call, before the token is dealt with: all tokens brought but this one are pushed. */
  ghost predicate TraceMid(g: Grammar, p: Params, tr: seq<Event>, token: Token) {
    Fed(tr) == Pending(tr) + [token] && TraceOk(g, p, tr)
  }

  ghost predicate MidCall(g: Grammar, p: Params, ct: Cert, cfg: Config, token: Token) {
    && CertShape(p.t, ct)
    && cfg.started && |cfg.stack| < p.depth
    && Parses(g, p, ct, cfg.stack, Pending(cfg.trace))
    && TraceMid(g, p, cfg.trace, token)
  }

  /** Between calls. */
  ghost predicate Sound(g: Grammar, p: Params, ct: Cert, cfg: Config) {
    && CertShape(p.t, ct)
    && (if cfg.started
        then && |cfg.stack| < p.depth
             && Parses(g, p, ct, cfg.stack, Pending(cfg.trace))
             && Fed(cfg.trace) == Pending(cfg.trace)
        else cfg.stack == [])
    && TraceOk(g, p, cfg.trace)
  }

  lemma FreshSound(g: Grammar, p: Params, ct: Cert)
    requires CertShape(p.t, ct)
    ensures Sound(g, p, ct, FRESH)
  {
  }

  lemma EnterMidCall(g: Grammar, p: Params, ct: Cert, cfg: Config, token: Token)
    requires ValidParams(p) && Sound(g, p, ct, cfg)
    ensures MidCall(g, p, ct, Enter(cfg, token), token)
  {
    var call := Call(token.code, token.minor);
    var c := if cfg.started then cfg else Config(true, [], -1, cfg.trace + [Start]);
    if !cfg.started {
      AppendOne(cfg.trace, Start);
      TraceOkExtends(g, p, cfg.trace, [Start]);
      assert LevelOk(g, p.t, ct, [], [], 0);
      assert Explains(g, p, ct, [], []);
      assert Yields([]) == [];
    }
    assert Parses(g, p, ct, c.stack, Pending(c.trace));
    AppendOne(c.trace, call);
    TraceOkExtends(g, p, c.trace, [call]);
  }

  /** Stack safety: the certificate rules out every way in which an iteration could go wrong. */
  lemma NeverStuck(g: Grammar, p: Params, ct: Cert, cfg: Config, token: Token)
    requires ValidParams(p) && Certified(g, p.t, ct) && token.code < p.t.ntoken
    requires MidCall(g, p, ct, cfg, token)
    ensures Runs(p, cfg, token.code)
  {
    var forest :| Explains(g, p, ct, cfg.stack, forest) && Yields(forest) == Pending(cfg.trace);
    var s := Top(cfg.stack);
    assert LevelOk(g, p.t, ct, cfg.stack, forest, |cfg.stack|);
    LookupIsDense(p.t, s, token.code);
    assert ActionOk(g, p.t, ct, s, token.code);
    var act := FindShiftAction(p.t, s, token.code);
    if p.t.nstate <= act < p.t.nstate + |p.t.rules| {
      ReduceFits(g, p, ct, cfg.stack, forest, act - p.t.nstate);
    }
  }

  /** Under which terminal a token is shifted, and that its edge is in the certificate. */
  lemma ShiftEdge(g: Grammar, p: Params, ct: Cert, s: nat, token: Token) returns (leaf: Tree)
    requires Certified(g, p.t, ct) && token.code < p.t.ntoken
    requires s < p.t.nstate && FindShiftAction(p.t, s, token.code) < p.t.nstate
    ensures EdgeOk(p.t, ct, s, Root(g, leaf), FindShiftAction(p.t, s, token.code))
    ensures leaf.Leaf? && Derives(g, p.t, leaf) && Value(p.sem, leaf) == token.minor && Yield(leaf) == [token]
  {
    LookupIsDense(p.t, s, token.code);
    assert ActionOk(g, p.t, ct, s, token.code);
    leaf := Leaf(token.code, Reading(p.t, s, token.code).value, token.minor);
  }

  lemma ShiftSound(g: Grammar, p: Params, ct: Cert, cfg: Config, token: Token)
    requires ValidParams(p) && Certified(g, p.t, ct) && token.code < p.t.ntoken
    requires MidCall(g, p, ct, cfg, token)
    requires Top(cfg.stack) < p.t.nstate && FindShiftAction(p.t, Top(cfg.stack), token.code) < p.t.nstate
    ensures Sound(g, p, ct, Iterate(p, cfg, token).cfg)
  {
    if |cfg.stack| + 1 >= p.depth {
      ShiftOverflows(p, cfg, token);
      DestroyAllQuiet(cfg.stack);
      var more := DestroyAll(cfg.stack) + [Overflow(token.code, token.minor)];
      TraceOkExtends(g, p, cfg.trace, more);
      assert cfg.trace + DestroyAll(cfg.stack) + [Overflow(token.code, token.minor)] == cfg.trace + more;
    } else {
      ShiftPushes(p, cfg, token);
      var leaf := ShiftEdge(g, p, ct, Top(cfg.stack), token);
      ShiftExplained(g, p, ct, cfg, token, leaf,
                     Entry(FindShiftAction(p.t, Top(cfg.stack), token.code), token.code, token.minor));
    }
  }

  /** The derivation of a token that is pushed. */
  lemma ShiftExplained(g: Grammar, p: Params, ct: Cert, cfg: Config, token: Token, leaf: Tree, e: Entry)
    requires MidCall(g, p, ct, cfg, token) && EdgeOk(p.t, ct, Top(cfg.stack), Root(g, leaf), e.state)
    requires Derives(g, p.t, leaf) && Value(p.sem, leaf) == e.minor && Yield(leaf) == [token]
    requires token == Token(e.major, e.minor)
    ensures var tr := cfg.trace + [Shift(e)];
            && Parses(g, p, ct, cfg.stack + [e], Pending(tr)) && Fed(tr) == Pending(tr) && TraceOk(g, p, tr)
  {
    ParsesPush(g, p, ct, cfg.stack, Pending(cfg.trace), leaf, e);
    AppendOne(cfg.trace, Shift(e));
    TraceOkExtends(g, p, cfg.trace, [Shift(e)]);
  }

  lemma ParsesPush(g: Grammar, p: Params, ct: Cert, stack: seq<Entry>, tokens: seq<Token>, tr: Tree, e: Entry)
    requires CertShape(p.t, ct) && Parses(g, p, ct, stack, tokens)
    requires EdgeOk(p.t, ct, Top(stack), Root(g, tr), e.state)
    requires Derives(g, p.t, tr) && Value(p.sem, tr) == e.minor
    ensures Parses(g, p, ct, stack + [e], tokens + Yield(tr))
  {
    var forest :| Explains(g, p, ct, stack, forest) && Yields(forest) == tokens;
    ExplainsPush(g, p, ct, stack, forest, e, tr);
    YieldsConcat(forest, [tr]);
    YieldsOne(tr);
  }

  lemma ErrorSound(g: Grammar, p: Params, ct: Cert, cfg: Config, token: Token)
    requires ValidParams(p) && Certified(g, p.t, ct) && MidCall(g, p, ct, cfg, token)
    requires Runs(p, cfg, token.code)
    requires FindShiftAction(p.t, Top(cfg.stack), token.code) == p.t.ErrorAction()
    ensures Sound(g, p, ct, Iterate(p, cfg, token).cfg)
  {
    var error := SyntaxError(token.code, token.minor);
    AppendOne(cfg.trace, error);
    TraceOkExtends(g, p, cfg.trace, [error]);
  }

  lemma ReduceSound(g: Grammar, p: Params, ct: Cert, cfg: Config, token: Token, r: nat)
    requires ValidParams(p) && Certified(g, p.t, ct) && MidCall(g, p, ct, cfg, token)
    requires Top(cfg.stack) < p.t.nstate && r < |g.rules| && ReduceOk(g, p.t, ct, Top(cfg.stack), r)
    ensures CanReduce(p.t, cfg.stack, r)
    ensures var cfg' := ReduceBy(p, cfg, r);
            if cfg'.started then MidCall(g, p, ct, cfg', token) else Sound(g, p, ct, cfg')
  {
    var forest :| Explains(g, p, ct, cfg.stack, forest) && Yields(forest) == Pending(cfg.trace);
    ReduceFits(g, p, ct, cfg.stack, forest, r);
    ReduceExplained(g, p, ct, cfg, token, r, forest);
  }

  lemma ReduceExplained(g: Grammar, p: Params, ct: Cert, cfg: Config, token: Token, r: nat, forest: seq<Tree>)
    requires CertShape(p.t, ct) && cfg.started && |cfg.stack| < p.depth && TraceMid(g, p, cfg.trace, token)
    requires Explains(g, p, ct, cfg.stack, forest) && Yields(forest) == Pending(cfg.trace)
    requires CanReduce(p.t, cfg.stack, r) && r < |g.rules| && p.t.rules[r].lhs == g.rules[r].lhs
    requires var n := |cfg.stack| - p.t.rules[r].nrhs;
             && GotoOk(g, p.t, ct, Top(cfg.stack[..n]), g.rules[r].lhs)
             && RootsFit(g, forest[n..], g.rules[r].rhs)
             && (Top(cfg.stack[..n]) == 0 ==> n == 0)
    ensures var cfg' := ReduceBy(p, cfg, r);
            if cfg'.started then MidCall(g, p, ct, cfg', token) else Sound(g, p, ct, cfg')
  {
    var n := |cfg.stack| - p.t.rules[r].nrhs;
    var base, d := cfg.stack[..n], Node(r, forest[n..]);
    var act := FindReduceAction(p.t, Top(base), g.rules[r].lhs);
    ReduceTree(g, p, ct, cfg.stack, forest, r, n);
    if act < p.t.nstate {
      ExplainsPop(g, p, ct, cfg.stack, forest, n);
      GotoSound(g, p, ct, cfg, token, r, base, forest[..n], d, act);
    } else {
      OnlyTree(g, forest, n, d);
      assert cfg.stack[n..] == cfg.stack && base == [];
      AcceptSound(g, p, ct, cfg, token, r, d);
    }
  }

  /** When the whole stack is reduced, one tree is left. */
  lemma OnlyTree(g: Grammar, forest: seq<Tree>, n: nat, d: Tree)
    requires n == 0 <= |forest|
    ensures Yields(forest[..n] + [d]) == Yield(d)
  {
    assert forest[..n] + [d] == [d];
    YieldsOne(d);
  }

  /** The reduction to the start symbol. */
  lemma AcceptSound(g: Grammar, p: Params, ct: Cert, cfg: Config, token: Token, r: nat, d: Tree)
    requires CertShape(p.t, ct) && TraceMid(g, p, cfg.trace, token)
    requires CanReduce(p.t, cfg.stack, r) && p.t.rules[r].nrhs == |cfg.stack|
    requires FindReduceAction(p.t, 0, p.t.rules[r].lhs) >= p.t.nstate
    requires Derives(g, p.t, d) && Root(g, d) == g.start && Yield(d) == Pending(cfg.trace)
    requires Value(p.sem, d) == p.sem(r, Minors(cfg.stack))
    ensures Sound(g, p, ct, ReduceBy(p, cfg, r))
  {
    var value := p.sem(r, Minors(cfg.stack));
    assert cfg.stack[..0] == [] && cfg.stack[0..] == cfg.stack;
    var tr := cfg.trace + [Reduce(r, cfg.stack)];
    var tr' := tr + [Accept(value)];
    assert ReduceBy(p, cfg, r).trace == tr' by {
      assert tr + DestroyAll([]) + [Accept(value)] == tr';
    }
    QuietEvents(cfg.trace, [Reduce(r, cfg.stack)]);
    TraceOkExtends(g, p, cfg.trace, [Reduce(r, cfg.stack)]);
    forall i | 0 <= i < |tr'| && tr'[i].Accept? ensures AcceptOk(g, p, tr', i) {
      if i < |tr| {
        assert AcceptOk(g, p, tr, i) && tr'[..i] == tr[..i];
      } else {
        assert tr'[..i] == tr;
      }
    }
  }

  /** The reduction whose result is pushed, */
  lemma GotoPushed(g: Grammar, p: Params, ct: Cert, cfg: Config, token: Token, r: nat,
                   base: seq<Entry>, forest: seq<Tree>, d: Tree, e: Entry)
    requires CertShape(p.t, ct) && cfg.started && |base| + 1 < p.depth && TraceMid(g, p, cfg.trace, token)
    requires |base| <= |cfg.stack| && Explains(g, p, ct, base, forest)
    requires EdgeOk(p.t, ct, Top(base), Root(g, d), e.state)
    requires Derives(g, p.t, d) && Value(p.sem, d) == e.minor
    requires Yields(forest + [d]) == Pending(cfg.trace)
    ensures var tr := cfg.trace + [Reduce(r, cfg.stack[|base|..])] + [Goto(e)];
            MidCall(g, p, ct, cfg.(stack := base + [e], trace := tr), token)
  {
    var more := [Reduce(r, cfg.stack[|base|..]), Goto(e)];
    ExplainsPush(g, p, ct, base, forest, e, d);
    QuietEvents(cfg.trace, more);
    TraceOkExtends(g, p, cfg.trace, more);
    assert cfg.trace + [Reduce(r, cfg.stack[|base|..])] + [Goto(e)] == cfg.trace + more;
    assert Parses(g, p, ct, base + [e], Pending(cfg.trace));
  }

  /** and the one whose result overflows the stack. */
  lemma GotoOverflows(g: Grammar, p: Params, cfg: Config, token: Token, r: nat,
                      args: seq<Entry>, base: seq<Entry>, lhs: nat, value: Minor)
    requires TraceMid(g, p, cfg.trace, token)
    ensures TraceOk(g, p, cfg.trace + [Reduce(r, args)] + DestroyAll(base) + [Overflow(lhs, value)])
  {
    DestroyAllQuiet(base);
    var more := [Reduce(r, args)] + DestroyAll(base) + [Overflow(lhs, value)];
    TraceOkExtends(g, p, cfg.trace, more);
    assert cfg.trace + [Reduce(r, args)] + DestroyAll(base) + [Overflow(lhs, value)] == cfg.trace + more;
  }

  lemma GotoSound(g: Grammar, p: Params, ct: Cert, cfg: Config, token: Token, r: nat,
                  base: seq<Entry>, forest: seq<Tree>, d: Tree, act: nat)
    requires CertShape(p.t, ct) && cfg.started && |cfg.stack| < p.depth && TraceMid(g, p, cfg.trace, token)
    requires CanReduce(p.t, cfg.stack, r) && r < |g.rules| && p.t.rules[r].lhs == g.rules[r].lhs
    requires base == cfg.stack[..|cfg.stack| - p.t.rules[r].nrhs] && Explains(g, p, ct, base, forest)
    requires act == FindReduceAction(p.t, Top(base), g.rules[r].lhs) && act < p.t.nstate
    requires EdgeOk(p.t, ct, Top(base), g.rules[r].lhs, act)
    requires Derives(g, p.t, d) && Root(g, d) == g.rules[r].lhs
    requires Value(p.sem, d) == p.sem(r, Minors(cfg.stack[|base|..]))
    requires Yields(forest + [d]) == Pending(cfg.trace)
    ensures var cfg' := ReduceBy(p, cfg, r);
            if cfg'.started then MidCall(g, p, ct, cfg', token) else Sound(g, p, ct, cfg')
  {
    var args, lhs, n := cfg.stack[|base|..], p.t.rules[r].lhs, |base|;
    var value := p.sem(r, Minors(args));
    if n + 1 >= p.depth {
      ReduceOverflows(p, cfg, r, n);
      GotoOverflows(g, p, cfg, token, r, args, base, lhs, value);
    } else {
      ReducePushes(p, cfg, r, n, Entry(act, lhs, value));
      GotoPushed(g, p, ct, cfg, token, r, base, forest, d, Entry(act, lhs, value));
    }
  }

  /** What the certificate says about the action that is looked up. */
  lemma ActionSound(g: Grammar, p: Params, ct: Cert, cfg: Config, token: Token)
    requires ValidParams(p) && Certified(g, p.t, ct) && token.code < p.t.ntoken
    requires MidCall(g, p, ct, cfg, token)
    ensures Runs(p, cfg, token.code) && Top(cfg.stack) < p.t.nstate
    ensures var act := FindShiftAction(p.t, Top(cfg.stack), token.code);
            && (p.t.nstate <= act < p.t.nstate + |p.t.rules| ==>
                  act - p.t.nstate < |g.rules| && ReduceOk(g, p.t, ct, Top(cfg.stack), act - p.t.nstate))
            && (p.t.nstate + |p.t.rules| <= act ==> act == p.t.ErrorAction())
  {
    NeverStuck(g, p, ct, cfg, token);
    LookupIsDense(p.t, Top(cfg.stack), token.code);
    assert ActionOk(g, p.t, ct, Top(cfg.stack), token.code);
  }

  /** What one iteration leaves behind. */
  ghost predicate GoesOn(g: Grammar, p: Params, ct: Cert, out: Outcome, token: Token) {
    if out.done then Sound(g, p, ct, out.cfg) else MidCall(g, p, ct, out.cfg, token)
  }

  lemma IterateReduces(g: Grammar, p: Params, ct: Cert, cfg: Config, token: Token, r: nat)
    requires ValidParams(p) && Certified(g, p.t, ct) && MidCall(g, p, ct, cfg, token) && Runs(p, cfg, token.code)
    requires Top(cfg.stack) < p.t.nstate && r < |g.rules| && ReduceOk(g, p.t, ct, Top(cfg.stack), r)
    requires FindShiftAction(p.t, Top(cfg.stack), token.code) == p.t.nstate + r && r < |p.t.rules|
    ensures GoesOn(g, p, ct, Iterate(p, cfg, token), token)
  {
    ReduceSound(g, p, ct, cfg, token, r);
  }

  /** One iteration keeps the invariant. */
  lemma IterateSound(g: Grammar, p: Params, ct: Cert, cfg: Config, token: Token)
    requires ValidParams(p) && Certified(g, p.t, ct) && token.code < p.t.ntoken
    requires MidCall(g, p, ct, cfg, token)
    ensures Runs(p, cfg, token.code) && GoesOn(g, p, ct, Iterate(p, cfg, token), token)
  {
    ActionSound(g, p, ct, cfg, token);
    var act := FindShiftAction(p.t, Top(cfg.stack), token.code);
    if act < p.t.nstate {
      ShiftSound(g, p, ct, cfg, token);
    } else if act < p.t.nstate + |p.t.rules| {
      IterateReduces(g, p, ct, cfg, token, act - p.t.nstate);
    } else {
      ErrorSound(g, p, ct, cfg, token);
    }
  }

  lemma LoopSound(g: Grammar, p: Params, ct: Cert, cfg: Config, token: Token, n: nat)
    requires ValidParams(p) && Certified(g, p.t, ct) && token.code < p.t.ntoken
    requires MidCall(g, p, ct, cfg, token) && Loop(p, cfg, token, n).done
    ensures Sound(g, p, ct, Loop(p, cfg, token, n).cfg)
  {
    var inv, post := c => MidCall(g, p, ct, c, token), c => Sound(g, p, ct, c);
    var step := Turn(p, token);
    forall c | inv(c) ensures if step(c).done then post(step(c).cfg) else inv(step(c).cfg) {
      IterateSound(g, p, ct, c, token);
    }
    TurnsKeep(step, inv, post, cfg, n);
  }

  lemma DriveSound(g: Grammar, p: Params, ct: Cert, cfg: Config, token: Token)
    requires ValidParams(p) && Certified(g, p.t, ct) && token.code < p.t.ntoken
    requires Sound(g, p, ct, cfg) && Halts(p, cfg, token)
    ensures Sound(g, p, ct, Drive(p, cfg, token))
  {
    var n: nat :| Loop(p, Enter(cfg, token), token, n).done
                  && Drive(p, cfg, token) == Loop(p, Enter(cfg, token), token, n).cfg;
    EnterMidCall(g, p, ct, cfg, token);
    LoopSound(g, p, ct, Enter(cfg, token), token, n);
  }

  predicate TokensOk(t: Tables, tokens: seq<Token>) {
    forall i | 0 <= i < |tokens| :: tokens[i].code < t.ntoken
  }

  lemma {:induction false} FeedSound(g: Grammar, p: Params, ct: Cert, cfg: Config, tokens: seq<Token>)
    requires ValidParams(p) && Certified(g, p.t, ct) && TokensOk(p.t, tokens)
    requires Sound(g, p, ct, cfg) && AllHalt(p, cfg, tokens)
    ensures Sound(g, p, ct, Feed(p, cfg, tokens))
    decreases |tokens|
  {
    if tokens != [] {
      DriveSound(g, p, ct, cfg, tokens[0]);
      FeedSound(g, p, ct, Drive(p, cfg, tokens[0]), tokens[1..]);
    }
  }
}
