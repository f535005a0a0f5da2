/** A second certificate, checkable on the tables alone, under which every call returns. */
module LemonTermination {
  import opened LemonTables
  import opened LemonGrammar
  import opened LemonDriver
  import opened LemonSoundness

  /** A weight for every element buried in the stack, and a height for the state on top. */
  datatype Rank = Rank(weight: nat, height: (nat, nat) -> nat)

  /** A reduction by rule r in state s that ends in state s2 loses rank. */
  predicate Loses(g: Grammar, rk: Rank, s: nat, tok: nat, r: nat, s2: nat)
    requires r < |g.rules|
  {
    var m := |g.rules[r].rhs|;
    if m == 0 then rk.height(s2, tok) + (if s == 0 then 0 else rk.weight) < rk.height(s, tok)
    else rk.height(s2, tok) < rk.height(s, tok) + rk.weight * (m - 1)
  }

  predicate Ranked(g: Grammar, t: Tables, ct: Cert, rk: Rank)
    requires CertShape(t, ct) && |g.rules| == |t.rules|
  {
    forall s, tok | 0 <= s < t.nstate && 0 <= tok < t.ntoken :: RankedAt(g, t, ct, rk, s, tok)
  }

  predicate RankedAt(g: Grammar, t: Tables, ct: Cert, rk: Rank, s: nat, tok: nat)
    requires CertShape(t, ct) && |g.rules| == |t.rules| && s < t.nstate
  {
    var act := DenseAction(t, s, tok);
    t.nstate <= act < t.nstate + |t.rules| ==>
      var r := act - t.nstate;
      |g.rules[r].rhs| <= |ct.past[s]| ==>
        forall e | e in Exposed(t, ct, s, |g.rules[r].rhs|) ::
          GotoDefined(t, e, g.rules[r].lhs) && FindReduceAction(t, e, g.rules[r].lhs) < t.nstate ==>
            Loses(g, rk, s, tok, r, FindReduceAction(t, e, g.rules[r].lhs))
  }

  /** The rank of a stack: the weight of all its elements but the topmost, and the top's height. */
  function Potential(rk: Rank, stack: seq<Entry>, tok: nat): nat {
    rk.height(Top(stack), tok) + (if stack == [] then 0 else rk.weight * (|stack| - 1))
  }

  /** An iteration that does not end the call is a reduction whose result is pushed. */
  lemma OnlyReductionsGoOn(g: Grammar, p: Params, ct: Cert, cfg: Config, token: Token, forest: seq<Tree>)
    returns (r: nat, n: nat)
    requires ValidParams(p) && Certified(g, p.t, ct) && token.code < p.t.ntoken
    requires cfg.started && Explains(g, p, ct, cfg.stack, forest) && !Iterate(p, cfg, token).done
    ensures Top(cfg.stack) < p.t.nstate && r < |g.rules| && n <= |cfg.stack|
    ensures DenseAction(p.t, Top(cfg.stack), token.code) == p.t.nstate + r
    ensures ReduceOk(g, p.t, ct, Top(cfg.stack), r)
    ensures CanReduce(p.t, cfg.stack, r) && n + |g.rules[r].rhs| == |cfg.stack|
    ensures FindReduceAction(p.t, Top(cfg.stack[..n]), g.rules[r].lhs) < p.t.nstate
    ensures Iterate(p, cfg, token).cfg == ReduceBy(p, cfg, r) && ReduceBy(p, cfg, r).started
  {
    var s := Top(cfg.stack);
    LookupIsDense(p.t, s, token.code);
    assert ActionOk(g, p.t, ct, s, token.code);
    r := FindShiftAction(p.t, s, token.code) - p.t.nstate;
    n := |cfg.stack| - p.t.rules[r].nrhs;
  }

  /** The state that such a reduction exposes, and that it loses rank. */
  lemma ReductionLoses(g: Grammar, p: Params, ct: Cert, rk: Rank, stack: seq<Entry>, forest: seq<Tree>,
                       tok: nat, r: nat, n: nat)
    requires Certified(g, p.t, ct) && Ranked(g, p.t, ct, rk) && Explains(g, p, ct, stack, forest)
    requires Top(stack) < p.t.nstate && tok < p.t.ntoken && r < |g.rules| && n <= |stack|
    requires DenseAction(p.t, Top(stack), tok) == p.t.nstate + r && ReduceOk(g, p.t, ct, Top(stack), r)
    requires n + |g.rules[r].rhs| == |stack|
    requires GotoDefined(p.t, Top(stack[..n]), g.rules[r].lhs)
    requires FindReduceAction(p.t, Top(stack[..n]), g.rules[r].lhs) < p.t.nstate
    ensures Loses(g, rk, Top(stack), tok, r, FindReduceAction(p.t, Top(stack[..n]), g.rules[r].lhs))
  {
    var s, e, k := Top(stack), Top(stack[..n]), |g.rules[r].rhs|;
    assert RankedAt(g, p.t, ct, rk, s, tok);
    assert LevelOk(g, p.t, ct, stack, forest, |stack|);
    assert e == StateAt(stack, n);
    assert e in Exposed(p.t, ct, s, k) by {
      if k > 0 { assert StateAt(stack, |stack| - 1 - (k - 1)) in ct.below[s][k - 1]; }
    }
  }

  /** Every iteration that does not end the call lowers the potential. */
  lemma IterateDescends(g: Grammar, p: Params, ct: Cert, rk: Rank, cfg: Config, token: Token, forest: seq<Tree>)
    returns (forest': seq<Tree>)
    requires ValidParams(p) && Certified(g, p.t, ct) && Ranked(g, p.t, ct, rk)
    requires token.code < p.t.ntoken && cfg.started && Explains(g, p, ct, cfg.stack, forest)
    requires !Iterate(p, cfg, token).done
    ensures var cfg' := Iterate(p, cfg, token).cfg;
            && cfg'.started && Explains(g, p, ct, cfg'.stack, forest')
            && Potential(rk, cfg'.stack, token.code) < Potential(rk, cfg.stack, token.code)
  {
    var r, n := OnlyReductionsGoOn(g, p, ct, cfg, token, forest);
    ReduceFits(g, p, ct, cfg.stack, forest, r);
    ReduceTree(g, p, ct, cfg.stack, forest, r, n);
    ExplainsPop(g, p, ct, cfg.stack, forest, n);
    ReductionLoses(g, p, ct, rk, cfg.stack, forest, token.code, r, n);
    forest' := PushedForest(g, p, ct, cfg, forest, r, n);
    TopNotBottom(g, p, ct, cfg.stack, forest);
    PotentialDrops(g, rk, cfg.stack, ReduceBy(p, cfg, r).stack, token.code, r, n);
  }

  lemma TopNotBottom(g: Grammar, p: Params, ct: Cert, stack: seq<Entry>, forest: seq<Tree>)
    requires CertShape(p.t, ct) && Explains(g, p, ct, stack, forest)
    ensures stack != [] ==> Top(stack) != 0
  {
    assert LevelOk(g, p.t, ct, stack, forest, |stack|);
  }

  lemma PushedForest(g: Grammar, p: Params, ct: Cert, cfg: Config, forest: seq<Tree>, r: nat, n: nat)
    returns (forest': seq<Tree>)
    requires Certified(g, p.t, ct) && r < |g.rules| && n <= |cfg.stack| && n <= |forest|
    requires CanReduce(p.t, cfg.stack, r) && n + |g.rules[r].rhs| == |cfg.stack| && ReduceBy(p, cfg, r).started
    requires Explains(g, p, ct, cfg.stack[..n], forest[..n])
    requires GotoOk(g, p.t, ct, Top(cfg.stack[..n]), g.rules[r].lhs)
    requires var d := Node(r, forest[n..]);
             Derives(g, p.t, d) && Root(g, d) == g.rules[r].lhs
             && Value(p.sem, d) == p.sem(r, Minors(cfg.stack[n..]))
    ensures forest' == forest[..n] + [Node(r, forest[n..])]
    ensures Explains(g, p, ct, ReduceBy(p, cfg, r).stack, forest')
    ensures |ReduceBy(p, cfg, r).stack| == n + 1
    ensures Top(ReduceBy(p, cfg, r).stack) == FindReduceAction(p.t, Top(cfg.stack[..n]), g.rules[r].lhs)
  {
    var base, d := cfg.stack[..n], Node(r, forest[n..]);
    var s2 := FindReduceAction(p.t, Top(base), g.rules[r].lhs);
    var e := Entry(s2, g.rules[r].lhs, p.sem(r, Minors(cfg.stack[n..])));
    forest' := forest[..n] + [d];
    ExplainsPush(g, p, ct, base, forest[..n], e, d);
    assert ReduceBy(p, cfg, r).stack == base + [e];
  }

  lemma PotentialDrops(g: Grammar, rk: Rank, stack: seq<Entry>, stack': seq<Entry>, tok: nat, r: nat, n: nat)
    requires r < |g.rules| && n + |g.rules[r].rhs| == |stack| && |stack'| == n + 1
    requires stack != [] ==> Top(stack) != 0
    requires Loses(g, rk, Top(stack), tok, r, Top(stack'))
    ensures Potential(rk, stack', tok) < Potential(rk, stack, tok)
  {
    var m := |g.rules[r].rhs|;
    if m == 0 {
      if stack != [] { assert rk.weight * n == rk.weight * (n - 1) + rk.weight; }
    } else {
      assert rk.weight * (|stack| - 1) == rk.weight * n + rk.weight * (m - 1);
    }
  }

  lemma {:induction false} LoopEnds(g: Grammar, p: Params, ct: Cert, rk: Rank, cfg: Config, token: Token,
                                    forest: seq<Tree>)
    returns (n: nat)
    requires ValidParams(p) && Certified(g, p.t, ct) && Ranked(g, p.t, ct, rk)
    requires token.code < p.t.ntoken && cfg.started && Explains(g, p, ct, cfg.stack, forest)
    ensures Loop(p, cfg, token, n).done
    decreases Potential(rk, cfg.stack, token.code)
  {
    var step := Turn(p, token);
    if Iterate(p, cfg, token).done {
      n := 1;
      TurnsFirst(step, cfg, 0);
    } else {
      var forest' := IterateDescends(g, p, ct, rk, cfg, token, forest);
      var m := LoopEnds(g, p, ct, rk, Iterate(p, cfg, token).cfg, token, forest');
      n := m + 1;
      TurnsFirst(step, cfg, m);
    }
  }

  /** With ranked tables every call returns, so the parser takes every sequence of tokens. */
  lemma {:induction false} RankedHalts(g: Grammar, p: Params, ct: Cert, rk: Rank, cfg: Config, tokens: seq<Token>)
    requires ValidParams(p) && Certified(g, p.t, ct) && Ranked(g, p.t, ct, rk)
    requires TokensOk(p.t, tokens) && Sound(g, p, ct, cfg)
    ensures AllHalt(p, cfg, tokens)
    decreases |tokens|
  {
    if tokens != [] {
      var mid := Enter(cfg, tokens[0]);
      EnterMidCall(g, p, ct, cfg, tokens[0]);
      var forest :| Explains(g, p, ct, mid.stack, forest) && Yields(forest) == Pending(mid.trace);
      var n := LoopEnds(g, p, ct, rk, mid, tokens[0], forest);
      DriveSound(g, p, ct, cfg, tokens[0]);
      RankedHalts(g, p, ct, rk, Drive(p, cfg, tokens[0]), tokens[1..]);
    }
  }
}
