/** The guarantees of the driver, over every sequence of calls. */
module LemonTheorems {
  import opened LemonTables
  import opened LemonGrammar
  import opened LemonDriver
  import opened LemonSoundness

  // ---------- Soundness of acceptance ----------

  /** Whatever tokens are fed to a fresh parser, every acceptance is right. */
  lemma AcceptanceSound(g: Grammar, p: Params, ct: Cert, tokens: seq<Token>, i: nat)
    requires ValidParams(p) && Certified(g, p.t, ct) && TokensOk(p.t, tokens) && AllHalt(p, FRESH, tokens)
    requires i < |Feed(p, FRESH, tokens).trace| && Feed(p, FRESH, tokens).trace[i].Accept?
    ensures AcceptOk(g, p, Feed(p, FRESH, tokens).trace, i)
  {
    FreshSound(g, p, ct);
    FeedSound(g, p, ct, FRESH, tokens);
  }

  /** No syntax error, no overflow and no acceptance so far. */
  predicate Clean(tr: seq<Event>) {
    forall i | 0 <= i < |tr| :: !tr[i].SyntaxError? && !tr[i].Overflow? && !tr[i].Accept?
  }

  /** In a clean trace nothing has been dropped. */
  predicate CleanFed(cfg: Config, tokens: seq<Token>) {
    Clean(cfg.trace) ==>
      && Fed(cfg.trace) == tokens
      && (cfg.started || (cfg.trace == [] && tokens == []))
  }

  /** The events of one iteration, and whether one of them is an error, overflow or acceptance. */
  lemma IterateEvents(p: Params, cfg: Config, token: Token) returns (more: seq<Event>)
    requires ValidParams(p)
    ensures Iterate(p, cfg, token).cfg.trace == cfg.trace + more
    ensures Clean(more) ==>
              && Fed(cfg.trace + more) == Fed(cfg.trace)
              && Iterate(p, cfg, token).cfg.started == cfg.started
    ensures |more| > 0 && more[|more| - 1].Accept? ==>
              Fed(cfg.trace + more[..|more| - 1]) == Fed(cfg.trace) && Iterate(p, cfg, token).done
  {
    var act := if Runs(p, cfg, token.code) then FindShiftAction(p.t, Top(cfg.stack), token.code) else 0;
    if !Runs(p, cfg, token.code) {
      more := [];
      assert cfg.trace + [] == cfg.trace;
    } else if act < p.t.nstate {
      var e := Entry(act, token.code, token.minor);
      more := PushEvents(p, cfg, e, Shift(e));
      if |cfg.stack| + 1 < p.depth { AppendOne(cfg.trace, Shift(e)); }
    } else if act < p.t.nstate + |p.t.rules| {
      more := ReduceEvents(p, cfg, act - p.t.nstate);
    } else {
      more := [SyntaxError(token.code, token.minor)];
      assert more[0] in more;
    }
  }

  lemma PushEvents(p: Params, cfg: Config, e: Entry, pushed: Event) returns (more: seq<Event>)
    requires pushed.Shift? || pushed.Goto?
    ensures Push(p, cfg, e, pushed).trace == cfg.trace + more && more != []
    ensures !more[|more| - 1].Accept? && (pushed.Goto? ==> forall x | x in more :: Quiet(x))
    ensures Clean(more) ==> more == [pushed] && Push(p, cfg, e, pushed).started == cfg.started
  {
    if |cfg.stack| + 1 >= p.depth {
      DestroyAllQuiet(cfg.stack);
      more := DestroyAll(cfg.stack) + [Overflow(e.major, e.minor)];
      assert cfg.trace + DestroyAll(cfg.stack) + [Overflow(e.major, e.minor)] == cfg.trace + more;
      assert more[|more| - 1].Overflow?;
    } else {
      more := [pushed];
    }
  }

  /** A reduction whose result is pushed reads nothing, unless it overflows. */
  lemma GotoEvents(p: Params, cfg: Config, head: Event, base: seq<Entry>, e: Entry) returns (more: seq<Event>)
    requires ValidParams(p) && head.Reduce?
    ensures var popped := cfg.(stack := base, trace := cfg.trace + [head]);
            Push(p, popped, e, Goto(e)).trace == cfg.trace + more
            && (Clean(more) ==> Push(p, popped, e, Goto(e)).started == cfg.started)
    ensures more != [] && !more[|more| - 1].Accept?
    ensures Clean(more) ==> Fed(cfg.trace + more) == Fed(cfg.trace)
  {
    var popped := cfg.(stack := base, trace := cfg.trace + [head]);
    var tail := PushEvents(p, popped, e, Goto(e));
    more := [head] + tail;
    assert cfg.trace + [head] + tail == cfg.trace + more;
    CleanParts([head], tail);
    QuietParts(head, tail);
    QuietEvents(cfg.trace, more);
  }

  lemma QuietParts(head: Event, tail: seq<Event>)
    requires Quiet(head) && forall x | x in tail :: Quiet(x)
    ensures forall x | x in [head] + tail :: Quiet(x)
  {
  }

  lemma ReduceEvents(p: Params, cfg: Config, r: nat) returns (more: seq<Event>)
    requires ValidParams(p) && CanReduce(p.t, cfg.stack, r)
    ensures ReduceBy(p, cfg, r).trace == cfg.trace + more && more != []
    ensures Clean(more) ==> Fed(cfg.trace + more) == Fed(cfg.trace) && ReduceBy(p, cfg, r).started == cfg.started
    ensures more[|more| - 1].Accept? ==>
              Fed(cfg.trace + more[..|more| - 1]) == Fed(cfg.trace) && !ReduceBy(p, cfg, r).started
  {
    var n := |cfg.stack| - p.t.rules[r].nrhs;
    var base, args, lhs := cfg.stack[..n], cfg.stack[n..], p.t.rules[r].lhs;
    var value := p.sem(r, Minors(args));
    var act := FindReduceAction(p.t, Top(base), lhs);
    if act < p.t.nstate {
      more := GotoEvents(p, cfg, Reduce(r, args), base, Entry(act, lhs, value));
    } else {
      DestroyAllQuiet(base);
      var quiet := [Reduce(r, args)] + DestroyAll(base);
      more := quiet + [Accept(value)];
      QuietEvents(cfg.trace, quiet);
      assert cfg.trace + [Reduce(r, args)] + DestroyAll(base) + [Accept(value)] == cfg.trace + more;
      assert more[|more| - 1].Accept? && more[..|more| - 1] == quiet;
    }
  }

  lemma CleanParts(a: seq<Event>, b: seq<Event>)
    ensures Clean(a + b) <==> Clean(a) && Clean(b)
  {
    if Clean(a + b) {
      forall i | 0 <= i < |a| ensures !a[i].SyntaxError? && !a[i].Overflow? && !a[i].Accept? {
        assert (a + b)[i] == a[i];
      }
      forall i | 0 <= i < |b| ensures !b[i].SyntaxError? && !b[i].Overflow? && !b[i].Accept? {
        assert (a + b)[|a| + i] == b[i];
      }
    }
  }

  /** What is known of the events between two configurations. */
  predicate Adds(a: Config, b: Config, more: seq<Event>) {
    && b.trace == a.trace + more
    && (Clean(more) ==> Fed(b.trace) == Fed(a.trace) && b.started == a.started)
    && (|more| > 0 && more[|more| - 1].Accept? && Clean(more[..|more| - 1]) ==>
          Fed(a.trace + more[..|more| - 1]) == Fed(a.trace))
  }

  ghost predicate AddsSome(a: Config, b: Config) {
    exists more :: Adds(a, b, more)
  }

  /** The same for a whole loop. */
  lemma {:induction false} TurnsEvents(step: Config -> Outcome, cfg: Config, n: nat) returns (more: seq<Event>)
    requires forall c :: AddsSome(c, step(c).cfg)
    ensures Adds(cfg, Turns(step, cfg, n).cfg, more)
    decreases n
  {
    if n == 0 {
      more := [];
      assert cfg.trace + [] == cfg.trace;
    } else {
      var out := step(cfg);
      assert AddsSome(cfg, out.cfg);
      more :| Adds(cfg, out.cfg, more);
      if !out.done {
        var rest := TurnsEvents(step, out.cfg, n - 1);
        more := JoinEvents(cfg, out.cfg, Turns(step, cfg, n).cfg, more, rest);
      }
    }
  }

  lemma LoopEvents(p: Params, cfg: Config, token: Token, n: nat) returns (more: seq<Event>)
    requires ValidParams(p)
    ensures Adds(cfg, Loop(p, cfg, token, n).cfg, more)
  {
    var step := Turn(p, token);
    forall c ensures AddsSome(c, step(c).cfg) {
      var m := IterateEvents(p, c, token);
      assert Adds(c, step(c).cfg, m);
    }
    more := TurnsEvents(step, cfg, n);
  }

  lemma JoinEvents(x: Config, y: Config, z: Config, a: seq<Event>, b: seq<Event>) returns (more: seq<Event>)
    requires Adds(x, y, a) && Adds(y, z, b)
    ensures Adds(x, z, more)
  {
    more := a + b;
    assert x.trace + a + b == x.trace + more;
    CleanParts(a, b);
    if |b| > 0 {
      var b' := b[..|b| - 1];
      assert more[..|more| - 1] == a + b';
      CleanParts(a, b');
      assert x.trace + a + b' == x.trace + more[..|more| - 1];
    } else {
      assert more == a;
    }
  }

  /** A call in a clean history loses no token. */
  lemma DriveClean(p: Params, cfg: Config, token: Token, tokens: seq<Token>)
    requires ValidParams(p) && Halts(p, cfg, token) && CleanFed(cfg, tokens)
    ensures CleanFed(Drive(p, cfg, token), tokens + [token])
    ensures var tr := Drive(p, cfg, token).trace;
            |tr| > 0 && tr[|tr| - 1].Accept? && Clean(tr[..|tr| - 1]) ==> Fed(tr[..|tr| - 1]) == tokens + [token]
  {
    var mid := Enter(cfg, token);
    var n: nat :| Loop(p, mid, token, n).done && Drive(p, cfg, token) == Loop(p, mid, token, n).cfg;
    var more := LoopEvents(p, mid, token, n);
    var tr := Drive(p, cfg, token).trace;
    CleanParts(mid.trace, more);
    EnterClean(cfg, token, tokens);
    if |more| > 0 {
      assert tr[..|tr| - 1] == mid.trace + more[..|more| - 1];
      CleanParts(mid.trace, more[..|more| - 1]);
    } else {
      assert tr == mid.trace;
      AppendOne(mid.trace[..|mid.trace| - 1], Call(token.code, token.minor));
    }
  }

  lemma EnterClean(cfg: Config, token: Token, tokens: seq<Token>)
    requires CleanFed(cfg, tokens)
    ensures Clean(Enter(cfg, token).trace) ==> Fed(Enter(cfg, token).trace) == tokens + [token]
  {
    var call := Call(token.code, token.minor);
    var before := if cfg.started then cfg.trace else cfg.trace + [Start];
    if !cfg.started {
      AppendOne(cfg.trace, Start);
      CleanParts(cfg.trace, [Start]);
    }
    AppendOne(before, call);
    CleanParts(before, [call]);
  }

  lemma {:induction false} FeedClean(p: Params, cfg: Config, before: seq<Token>, tokens: seq<Token>)
    requires ValidParams(p) && AllHalt(p, cfg, tokens) && CleanFed(cfg, before)
    ensures CleanFed(Feed(p, cfg, tokens), before + tokens)
    decreases |tokens|
  {
    if tokens == [] {
      assert before + tokens == before;
    } else {
      var c := Drive(p, cfg, tokens[0]);
      DriveClean(p, cfg, tokens[0], before);
      FeedClean(p, c, before + [tokens[0]], tokens[1..]);
      assert before + [tokens[0]] + tokens[1..] == before + tokens;
      assert Feed(p, cfg, tokens) == Feed(p, c, tokens[1..]);
    }
  }

  /** The headline: if a fresh parser takes all the tokens without an error, an overflow or an
      early acceptance, and the next call accepts, then the start symbol derives exactly these
      tokens, each read as itself, its fallback or the wildcard. */
  lemma CleanParseDerives(g: Grammar, p: Params, ct: Cert, tokens: seq<Token>, last: Token)
    returns (d: Tree)
    requires ValidParams(p) && Certified(g, p.t, ct) && TokensOk(p.t, tokens) && last.code < p.t.ntoken
    requires AllHalt(p, FRESH, tokens) && Clean(Feed(p, FRESH, tokens).trace)
    requires Halts(p, Feed(p, FRESH, tokens), last)
    requires var tr := Drive(p, Feed(p, FRESH, tokens), last).trace;
             |tr| > 0 && tr[|tr| - 1].Accept? && Clean(tr[..|tr| - 1])
    ensures IsDerivation(g, p.t, d) && Root(g, d) == g.start && Yield(d) == tokens
    ensures PlainReads(p.t) ==> Plain(p.t, d)
    ensures var tr := Drive(p, Feed(p, FRESH, tokens), last).trace;
            tr[|tr| - 1] == Accept(Value(p.sem, d))
  {
    var cfg := Feed(p, FRESH, tokens);
    FreshSound(g, p, ct);
    FeedSound(g, p, ct, FRESH, tokens);
    DriveSound(g, p, ct, cfg, last);
    FeedClean(p, FRESH, [], tokens);
    assert [] + tokens == tokens;
    DriveClean(p, cfg, last, tokens);
    var tr := Drive(p, cfg, last).trace;
    assert AcceptOk(g, p, tr, |tr| - 1);
    d := AcceptedTree(g, p, tr, tokens, last);
  }

  /** The derivation of an acceptance that has dropped no token. */
  lemma AcceptedTree(g: Grammar, p: Params, tr: seq<Event>, tokens: seq<Token>, last: Token) returns (d: Tree)
    requires |tr| > 0 && tr[|tr| - 1].Accept? && AcceptOk(g, p, tr, |tr| - 1)
    requires Fed(tr[..|tr| - 1]) == tokens + [last]
    ensures Derives(g, p.t, d) && Root(g, d) == g.start && Yield(d) == tokens
    ensures tr[|tr| - 1] == Accept(Value(p.sem, d))
  {
    var before := tr[..|tr| - 1];
    d :| Derives(g, p.t, d) && Root(g, d) == g.start
         && Yield(d) == Pending(before) && Value(p.sem, d) == tr[|tr| - 1].value;
    assert (tokens + [last])[..|tokens|] == tokens;
  }
}
