/** With complete tables the driver accepts whatever the start symbol derives, if the stack is deep enough. */
module LemonComplete {
  import opened LemonTables
  import opened LemonGrammar
  import opened LemonDriver
  import opened LemonItems
  import opened LemonSoundness
  import opened LemonTheorems
  import opened Names

  // ---------- The parser at work ----------

  /** The parser in the middle of a call with the first of the tokens that are left. */
  datatype Point = Point(cfg: Config, input: seq<Token>)

  /** After one more iteration, and the head of the next call when that ends this one. */
  function Next(p: Params, x: Point): Point
    requires ValidParams(p) && x.input != []
  {
    var out := Iterate(p, x.cfg, x.input[0]);
    if !out.done then Point(out.cfg, x.input)
    else if |x.input| == 1 then Point(out.cfg, [])
    else Point(Enter(out.cfg, x.input[1]), x.input[1..])
  }

  function Mover(p: Params): Point -> Point
    requires ValidParams(p)
  {
    (x: Point) => if x.input == [] then x else Next(p, x)
  }

  /** n moves, each with a token to work on, lead from x to y. */
  ghost predicate Leads(move: Point -> Point, x: Point, y: Point, n: nat)
    decreases n
  {
    if n == 0 then x == y else x.input != [] && Leads(move, move(x), y, n - 1)
  }

  ghost predicate Reaches(p: Params, x: Point, y: Point)
    requires ValidParams(p)
  {
    exists n: nat :: Leads(Mover(p), x, y, n)
  }

  lemma {:induction false} LeadsOn(move: Point -> Point, x: Point, y: Point, z: Point, m: nat, n: nat)
    requires Leads(move, x, y, m) && Leads(move, y, z, n)
    ensures Leads(move, x, z, m + n)
    decreases m
  {
    if m > 0 { LeadsOn(move, move(x), y, z, m - 1, n); }
  }

  lemma ReachesOn(p: Params, x: Point, y: Point, z: Point)
    requires ValidParams(p) && Reaches(p, x, y) && Reaches(p, y, z)
    ensures Reaches(p, x, z)
  {
    var move := Mover(p);
    var m: nat :| Leads(move, x, y, m);
    var n: nat :| Leads(move, y, z, n);
    LeadsOn(move, x, y, z, m, n);
  }

  lemma ReachesSelf(p: Params, x: Point)
    requires ValidParams(p)
    ensures Reaches(p, x, x)
  {
    assert Leads(Mover(p), x, x, 0);
  }

  lemma ReachesNext(p: Params, x: Point, y: Point)
    requires ValidParams(p) && x.input != [] && y == Next(p, x)
    ensures Reaches(p, x, y)
  {
    assert Leads(Mover(p), y, y, 0);
    assert Leads(Mover(p), x, y, 1);
  }

  // ---------- How much of the stack a derivation needs ----------

  /** While child i is parsed its i elder siblings are on the stack. */
  function Need(tr: Tree): nat
    decreases tr, 0
  {
    match tr
    case Leaf(_, _, _) => 1
    case Node(_, kids) => NeedAll(kids)
  }

  function NeedAll(kids: seq<Tree>): nat
    decreases kids, 1
  {
    if kids == [] then 1
    else
      var n := |kids| - 1;
      Max(NeedAll(kids[..n]), n + Need(kids[n]))
  }

  function Max(a: nat, b: nat): nat {
    if a < b then b else a
  }

  lemma {:induction false} NeedAllCovers(kids: seq<Tree>, i: nat)
    requires i < |kids|
    ensures i + Need(kids[i]) <= NeedAll(kids) && NeedAll(kids) >= 1
  {
    var n := |kids| - 1;
    if i < n { NeedAllCovers(kids[..n], i); }
  }

  lemma {:induction false} NeedAllPositive(kids: seq<Tree>)
    ensures NeedAll(kids) >= 1
  {
    if kids != [] { NeedAllPositive(kids[..|kids| - 1]); }
  }

  // ---------- One iteration ----------

  /** The parser is in a call, nothing has gone wrong, and item `it` is one of the state on top. */
  ghost predicate At(p: Params, ic: ItemCert, x: Point, it: Item) {
    && x.cfg.started && Clean(x.cfg.trace)
    && Top(x.cfg.stack) < p.t.nstate && ic.Has(Top(x.cfg.stack), it)
  }

  lemma CleanMore(a: seq<Event>, b: seq<Event>)
    requires Clean(a) && Clean(b)
    ensures Clean(a + b)
  {
  }

  /** The terminal behind the dot is pushed. */
  lemma Shifts(g: Grammar, p: Params, ic: ItemCert, x: Point, it: Item) returns (y: Point)
    requires ValidParams(p) && Complete(g, p.t, ic) && At(p, ic, x, it) && |x.cfg.stack| + 1 < p.depth
    requires |x.input| > 1 && x.input[0].code < p.t.ntoken
    requires it.rule < |g.rules| && it.dot < |g.rules[it.rule].rhs| && x.input[0].code in g.rules[it.rule].rhs[it.dot]
    ensures Reaches(p, x, y) && y.input == x.input[1..] && At(p, ic, y, it.(dot := it.dot + 1))
    ensures |y.cfg.stack| == |x.cfg.stack| + 1 && y.cfg.stack[..|x.cfg.stack|] == x.cfg.stack
    ensures y.cfg.stack[|x.cfg.stack|].minor == x.input[0].minor
  {
    var s, tok := Top(x.cfg.stack), x.input[0];
    assert ItemOk(g, p.t, ic, s, it) && ShiftOk(p.t, ic, s, it, tok.code);
    LookupIsDense(p.t, s, tok.code);
    var e := Entry(EntryFor(p.t, s, tok.code).value, tok.code, tok.minor);
    ShiftPushes(p, x.cfg, tok);
    y := Next(p, x);
    ReachesNext(p, x, y);
    CleanMore(x.cfg.trace, [Shift(e)]);
    CleanMore(x.cfg.trace + [Shift(e)], [Call(x.input[1].code, x.input[1].minor)]);
    assert y.cfg.stack == x.cfg.stack + [e];
  }

  /** A rule that has been parsed is reduced, and its left-hand side pushed over `base`. */
  lemma Reduces(g: Grammar, p: Params, ic: ItemCert, x: Point, q: nat, n: nat, it: Item) returns (y: Point)
    requires ValidParams(p) && Complete(g, p.t, ic) && q < |g.rules| && n + |g.rules[q].rhs| == |x.cfg.stack|
    requires x.input != [] && At(p, ic, x, Item(q, |g.rules[q].rhs|, x.input[0].code)) && n + 1 < p.depth
    requires Top(x.cfg.stack[..n]) < p.t.nstate && ic.Has(Top(x.cfg.stack[..n]), it)
    requires it.rule < |g.rules| && it.dot < |g.rules[it.rule].rhs| && g.rules[q].lhs in g.rules[it.rule].rhs[it.dot]
    ensures Reaches(p, x, y) && y.input == x.input && At(p, ic, y, it.(dot := it.dot + 1))
    ensures |y.cfg.stack| == n + 1 && y.cfg.stack[..n] == x.cfg.stack[..n]
    ensures y.cfg.stack[n].minor == p.sem(q, Minors(x.cfg.stack[n..]))
  {
    var tok, base, lhs := x.input[0], x.cfg.stack[..n], g.rules[q].lhs;
    ReductionIsNext(g, p, ic, x, q);
    GotoIsThere(g, p.t, ic, Top(base), it, lhs);
    var e := Entry(FindReduceAction(p.t, Top(base), lhs), lhs, p.sem(q, Minors(x.cfg.stack[n..])));
    y := Pushed(p, x, q, n, e);
    assert y.cfg.stack == base + [e];
  }

  /** A reduction whose result is pushed is one move. */
  lemma Pushed(p: Params, x: Point, q: nat, n: nat, e: Entry) returns (y: Point)
    requires ValidParams(p) && x.input != [] && x.cfg.started && Clean(x.cfg.trace) && n + 1 < p.depth
    requires Top(x.cfg.stack) < p.t.nstate && CanReduce(p.t, x.cfg.stack, q) && n + p.t.rules[q].nrhs == |x.cfg.stack|
    requires FindShiftAction(p.t, Top(x.cfg.stack), x.input[0].code) == p.t.nstate + q
    requires FindReduceAction(p.t, Top(x.cfg.stack[..n]), p.t.rules[q].lhs) == e.state < p.t.nstate
    requires e.major == p.t.rules[q].lhs && e.minor == p.sem(q, Minors(x.cfg.stack[n..]))
    ensures Reaches(p, x, y) && y.input == x.input && y.cfg.started && Clean(y.cfg.trace)
    ensures y.cfg.stack == x.cfg.stack[..n] + [e]
  {
    TurnReduces(p, x.cfg, x.input[0], q);
    ReducePushes(p, x.cfg, q, n, e);
    y := Next(p, x);
    ReachesNext(p, x, y);
    CleanMore(x.cfg.trace, [Reduce(q, x.cfg.stack[n..])]);
    CleanMore(x.cfg.trace + [Reduce(q, x.cfg.stack[n..])], [Goto(e)]);
  }

  lemma GotoIsThere(g: Grammar, t: Tables, ic: ItemCert, s: nat, it: Item, x: nat)
    requires Complete(g, t, ic) && s < t.nstate && ic.Has(s, it) && x >= t.ntoken
    requires it.rule < |g.rules| && it.dot < |g.rules[it.rule].rhs| && x in g.rules[it.rule].rhs[it.dot]
    ensures GotoDefined(t, s, x) && FindReduceAction(t, s, x) < t.nstate
    ensures ic.Has(FindReduceAction(t, s, x), it.(dot := it.dot + 1))
  {
    assert ItemOk(g, t, ic, s, it) && NonterminalOk(g, t, ic, s, it, x);
  }

  lemma ReductionIsNext(g: Grammar, p: Params, ic: ItemCert, x: Point, q: nat)
    requires ValidParams(p) && Complete(g, p.t, ic) && q < |g.rules| && x.input != []
    requires At(p, ic, x, Item(q, |g.rules[q].rhs|, x.input[0].code))
    ensures FindShiftAction(p.t, Top(x.cfg.stack), x.input[0].code) == p.t.nstate + q
    ensures q < |p.t.rules| && p.t.rules[q].lhs == g.rules[q].lhs && p.t.rules[q].nrhs == |g.rules[q].rhs|
  {
    var s, it := Top(x.cfg.stack), Item(q, |g.rules[q].rhs|, x.input[0].code);
    assert ItemOk(g, p.t, ic, s, it);
    LookupIsDense(p.t, s, x.input[0].code);
  }

  // ---------- Whole derivations ----------

  /** What the parser has to do for a derivation: to read its tokens, push its root, and move the dot. */
  ghost predicate Expects(g: Grammar, p: Params, ic: ItemCert, x: Point, it: Item, tr: Tree, rest: seq<Token>) {
    && At(p, ic, x, it)
    && IsDerivation(g, p.t, tr) && Plain(p.t, tr)
    && it.rule < |g.rules| && it.dot < |g.rules[it.rule].rhs| && Root(g, tr) in g.rules[it.rule].rhs[it.dot]
    && x.input == Yield(tr) + rest && rest != []
    && rest[0].code in ic.Coming(g.rules[it.rule].rhs[it.dot + 1..], it.look, p.t.ntoken)
    && |x.cfg.stack| + Need(tr) < p.depth
  }

  ghost predicate Done(p: Params, ic: ItemCert, x: Point, it: Item, tr: Tree, rest: seq<Token>, y: Point) {
    && ValidParams(p) && Reaches(p, x, y) && y.input == rest && At(p, ic, y, it.(dot := it.dot + 1))
    && |y.cfg.stack| == |x.cfg.stack| + 1 && y.cfg.stack[..|x.cfg.stack|] == x.cfg.stack
    && y.cfg.stack[|x.cfg.stack|].minor == Value(p.sem, tr)
  }

  lemma {:induction false} ParseTree(g: Grammar, p: Params, ic: ItemCert, x: Point, it: Item, tr: Tree,
                                     rest: seq<Token>)
    returns (y: Point)
    requires ValidParams(p) && Complete(g, p.t, ic) && Expects(g, p, ic, x, it, tr, rest)
    ensures Done(p, ic, x, it, tr, rest, y)
    decreases tr, 0, 0
  {
    match tr
    case Leaf(tok, _, minor) =>
      assert x.input[0] == Token(tok, minor) && x.input[1..] == rest;
      y := Shifts(g, p, ic, x, it);
    case Node(q, kids) =>
      NodeBegun(g, p, ic, x, it, q, kids, rest);
      var z := ParseKids(g, p, ic, x, x.cfg.stack, q, kids, 0, rest);
      y := NodeDone(g, p, ic, x, it, q, kids, rest, z);
  }

  lemma NodeBegun(g: Grammar, p: Params, ic: ItemCert, x: Point, it: Item, q: nat, kids: seq<Tree>, rest: seq<Token>)
    requires Complete(g, p.t, ic) && Expects(g, p, ic, x, it, Node(q, kids), rest)
    ensures Among(g, p, ic, x, x.cfg.stack, q, kids, 0, rest) && |x.cfg.stack| + NeedAll(kids) < p.depth
  {
    RuleBegun(g, p, ic, x, it, q, rest[0].code);
    assert kids[0..] == kids && x.cfg.stack[..|x.cfg.stack|] == x.cfg.stack;
  }

  /** The node is reduced. */
  lemma NodeDone(g: Grammar, p: Params, ic: ItemCert, x: Point, it: Item, q: nat, kids: seq<Tree>, rest: seq<Token>,
                 z: Point)
    returns (y: Point)
    requires ValidParams(p) && Complete(g, p.t, ic) && Expects(g, p, ic, x, it, Node(q, kids), rest)
    requires Reaches(p, x, z) && Among(g, p, ic, z, x.cfg.stack, q, kids, |kids|, rest)
    ensures Done(p, ic, x, it, Node(q, kids), rest, y)
  {
    var n := |x.cfg.stack|;
    AllParsed(g, p, ic, z, x.cfg.stack, q, kids, rest);
    NeedAllPositive(kids);
    y := Reduces(g, p, ic, z, q, n, it);
    ReachesOn(p, x, z, y);
  }

  /** All children of a node are on the stack, with their values. */
  lemma AllParsed(g: Grammar, p: Params, ic: ItemCert, z: Point, base: seq<Entry>, q: nat, kids: seq<Tree>,
                  rest: seq<Token>)
    requires Among(g, p, ic, z, base, q, kids, |kids|, rest)
    ensures z.input == rest && z.cfg.stack[..|base|] == base
    ensures Value(p.sem, Node(q, kids)) == p.sem(q, Minors(z.cfg.stack[|base|..]))
  {
    assert kids[|kids|..] == [] && Yields([]) + rest == rest;
    assert Minors(z.cfg.stack[|base|..]) == seq(|kids|, i requires 0 <= i < |kids| => Value(p.sem, kids[i]));
  }

  /** The rule of an expected nonterminal is begun. */
  lemma RuleBegun(g: Grammar, p: Params, ic: ItemCert, x: Point, it: Item, q: nat, look: nat)
    requires Complete(g, p.t, ic) && At(p, ic, x, it)
    requires it.rule < |g.rules| && it.dot < |g.rules[it.rule].rhs| && q < |g.rules|
    requires g.rules[q].lhs in g.rules[it.rule].rhs[it.dot]
    requires look in ic.Coming(g.rules[it.rule].rhs[it.dot + 1..], it.look, p.t.ntoken)
    ensures At(p, ic, x, Item(q, 0, look))
  {
    var s := Top(x.cfg.stack);
    assert ItemOk(g, p.t, ic, s, it) && NonterminalOk(g, p.t, ic, s, it, g.rules[q].lhs);
  }

  /** The parser has parsed the first i children of a node over `base`. */
  ghost predicate Among(g: Grammar, p: Params, ic: ItemCert, x: Point, base: seq<Entry>, q: nat, kids: seq<Tree>,
                        i: nat, rest: seq<Token>)
  {
    && q < |g.rules| && i <= |kids| && AreDerivations(g, p.t, kids) && AllPlain(p.t, kids)
    && RootsFit(g, kids, g.rules[q].rhs)
    && rest != [] && rest[0].code < p.t.ntoken && x.input == Yields(kids[i..]) + rest
    && At(p, ic, x, Item(q, i, rest[0].code))
    && |base| + i == |x.cfg.stack| && x.cfg.stack[..|base|] == base
    && forall j | 0 <= j < i :: x.cfg.stack[|base| + j].minor == Value(p.sem, kids[j])
  }

  lemma {:induction false} ParseKids(g: Grammar, p: Params, ic: ItemCert, x: Point, base: seq<Entry>, q: nat,
                                     kids: seq<Tree>, i: nat, rest: seq<Token>)
    returns (y: Point)
    requires ValidParams(p) && Complete(g, p.t, ic) && Among(g, p, ic, x, base, q, kids, i, rest)
    requires |base| + NeedAll(kids) < p.depth
    ensures Reaches(p, x, y) && Among(g, p, ic, y, base, q, kids, |kids|, rest)
    decreases kids, 1, |kids| - i
  {
    if i == |kids| {
      ReachesSelf(p, x);
      y := x;
    } else {
      var follow := Yields(kids[i + 1..]) + rest;
      YieldsFrom(kids, i, rest);
      NextKid(g, p.t, ic, q, kids, i, rest);
      NeedAllCovers(kids, i);
      KidExpected(g, p, ic, x, base, q, kids, i, rest, follow);
      var z := ParseTree(g, p, ic, x, Item(q, i, rest[0].code), kids[i], follow);
      KidDone(g, p, ic, x, base, q, kids, i, rest, z);
      y := ParseKids(g, p, ic, z, base, q, kids, i + 1, rest);
      ReachesOn(p, x, z, y);
    }
  }

  lemma KidExpected(g: Grammar, p: Params, ic: ItemCert, x: Point, base: seq<Entry>, q: nat, kids: seq<Tree>, i: nat,
                    rest: seq<Token>, follow: seq<Token>)
    requires Among(g, p, ic, x, base, q, kids, i, rest) && i < |kids|
    requires Yields(kids[i..]) + rest == Yield(kids[i]) + follow && |base| + i + Need(kids[i]) < p.depth
    requires follow != [] && follow[0].code in ic.Coming(g.rules[q].rhs[i + 1..], rest[0].code, p.t.ntoken)
    ensures Expects(g, p, ic, x, Item(q, i, rest[0].code), kids[i], follow)
  {
  }

  lemma YieldsFrom(kids: seq<Tree>, i: nat, rest: seq<Token>)
    requires i < |kids|
    ensures Yields(kids[i..]) + rest == Yield(kids[i]) + (Yields(kids[i + 1..]) + rest)
  {
    YieldsFirst(kids[i..]);
    assert kids[i..][0] == kids[i] && kids[i..][1..] == kids[i + 1..];
    var u, v := Yield(kids[i]), Yields(kids[i + 1..]);
    assert u + v + rest == u + (v + rest);
  }

  /** The token behind child i may come there. */
  lemma NextKid(g: Grammar, t: Tables, ic: ItemCert, q: nat, kids: seq<Tree>, i: nat, rest: seq<Token>)
    requires Complete(g, t, ic) && q < |g.rules| && AreDerivations(g, t, kids) && AllPlain(t, kids)
    requires RootsFit(g, kids, g.rules[q].rhs) && i < |kids| && rest != [] && rest[0].code < t.ntoken
    ensures var follow := Yields(kids[i + 1..]) + rest;
            follow != [] && follow[0].code in ic.Coming(g.rules[q].rhs[i + 1..], rest[0].code, t.ntoken)
  {
    FollowerMayCome(g, t, ic, kids[i + 1..], g.rules[q].rhs[i + 1..], rest);
  }

  lemma KidDone(g: Grammar, p: Params, ic: ItemCert, x: Point, base: seq<Entry>, q: nat, kids: seq<Tree>, i: nat,
                rest: seq<Token>, z: Point)
    requires Among(g, p, ic, x, base, q, kids, i, rest) && i < |kids|
    requires Done(p, ic, x, Item(q, i, rest[0].code), kids[i], Yields(kids[i + 1..]) + rest, z)
    ensures Among(g, p, ic, z, base, q, kids, i + 1, rest)
  {
    var n := |x.cfg.stack|;
    assert forall j | 0 <= j < n :: z.cfg.stack[j] == z.cfg.stack[..n][j];
    assert z.cfg.stack[..|base|] == x.cfg.stack[..|base|];
  }

  // ---------- Calls ----------

  lemma LoopOneMore(p: Params, cfg: Config, token: Token, n: nat, c: Config)
    requires ValidParams(p) && Loop(p, cfg, token, n) == Outcome(c, false)
    ensures Loop(p, cfg, token, n + 1) == Iterate(p, c, token)
  {
    TurnsOneMore(Turn(p, token), cfg, n, c);
  }

  /** All calls but that with the last token have returned, and that one has got to z after m iterations. */
  ghost predicate CallsDone(p: Params, cfg: Config, input: seq<Token>, z: Point, m: nat)
    requires ValidParams(p) && input != []
  {
    var before, last := input[..|input| - 1], input[|input| - 1];
    && z.input == [last] && AllHalt(p, cfg, before)
    && Loop(p, Enter(Feed(p, cfg, before), last), last, m) == Outcome(z.cfg, false)
  }

  /** The call with the first token has gone through k iterations at x. */
  ghost predicate InCall(p: Params, cfg: Config, k: nat, x: Point)
    requires ValidParams(p)
  {
    x.input != [] && Loop(p, Enter(cfg, x.input[0]), x.input[0], k) == Outcome(x.cfg, false)
  }

  /** The call goes on, */
  ghost predicate GoesOn(p: Params, cfg: Config, k: nat, x: Point, y: Point)
    requires ValidParams(p)
  {
    y.input == x.input && InCall(p, cfg, k + 1, y)
  }

  /** or returns and leaves c. */
  ghost predicate Returns(p: Params, cfg: Config, k: nat, x: Point, y: Point, c: Config)
    requires ValidParams(p) && x.input != []
  {
    && y.input == x.input[1..] && (y.input != [] ==> InCall(p, c, 0, y))
    && Loop(p, Enter(cfg, x.input[0]), x.input[0], k + 1) == Outcome(c, true)
  }

  ghost predicate MovesOn(p: Params, move: Point -> Point, cfg: Config, k: nat, x: Point)
    requires ValidParams(p) && x.input != []
  {
    GoesOn(p, cfg, k, x, move(x)) || exists c :: Returns(p, cfg, k, x, move(x), c)
  }

  /** Where a move begins. */
  ghost predicate Before(p: Params, cfg: Config, k: nat, x: Point)
    requires ValidParams(p)
  {
    InCall(p, cfg, k, x)
  }

  lemma InCallMoves(p: Params, cfg: Config, k: nat, x: Point)
    requires ValidParams(p) && InCall(p, cfg, k, x)
    ensures MovesOn(p, Mover(p), cfg, k, x)
  {
    LoopOneMore(p, Enter(cfg, x.input[0]), x.input[0], k, x.cfg);
    var out, y := Iterate(p, x.cfg, x.input[0]), Next(p, x);
    assert if out.done then Returns(p, cfg, k, x, y, out.cfg) else GoesOn(p, cfg, k, x, y);
  }

  /** From a point in the call with the first token to one in that with the last, all calls return. */
  lemma {:induction false} CallsReturn(p: Params, move: Point -> Point, cfg: Config, k: nat, x: Point, z: Point, n: nat)
    returns (m: nat)
    requires ValidParams(p) && Before(p, cfg, k, x) && Leads(move, x, z, n) && |z.input| == 1
    requires forall cfg, k, x {:trigger Before(p, cfg, k, x)} | Before(p, cfg, k, x) :: MovesOn(p, move, cfg, k, x)
    ensures CallsDone(p, cfg, x.input, z, m)
    decreases n
  {
    if n == 0 {
      m := k;
      NoCallReturned(p, cfg, x, k);
    } else {
      var y := move(x);
      if GoesOn(p, cfg, k, x, y) {
        m := CallsReturn(p, move, cfg, k + 1, y, z, n - 1);
      } else {
        var c :| Returns(p, cfg, k, x, y, c);
        m := CallsReturn(p, move, c, 0, y, z, n - 1);
        FirstReturned(p, cfg, x.input, k + 1, c, z, m);
      }
    }
  }

  lemma NoCallReturned(p: Params, cfg: Config, x: Point, k: nat)
    requires ValidParams(p) && |x.input| == 1
    requires Loop(p, Enter(cfg, x.input[0]), x.input[0], k) == Outcome(x.cfg, false)
    ensures CallsDone(p, cfg, x.input, x, k)
  {
    assert x.input[..0] == [] && x.input == [x.input[0]];
  }

  lemma FirstReturned(p: Params, cfg: Config, input: seq<Token>, k: nat, c: Config, z: Point, m: nat)
    requires ValidParams(p) && |input| > 1 && Loop(p, Enter(cfg, input[0]), input[0], k) == Outcome(c, true)
    requires CallsDone(p, c, input[1..], z, m)
    ensures CallsDone(p, cfg, input, z, m)
  {
    DriveIsLoop(p, cfg, input[0], k);
    FeedFirst(p, cfg, input[..|input| - 1], c);
    assert input[..|input| - 1][1..] == input[1..][..|input| - 2];
  }

  lemma FeedFirst(p: Params, cfg: Config, tokens: seq<Token>, c: Config)
    requires ValidParams(p) && tokens != [] && Halts(p, cfg, tokens[0]) && Drive(p, cfg, tokens[0]) == c
    ensures AllHalt(p, c, tokens[1..]) ==> AllHalt(p, cfg, tokens) && Feed(p, cfg, tokens) == Feed(p, c, tokens[1..])
  {
  }

  // ---------- Acceptance ----------

  /** The start symbol has been parsed, and the end of the input comes. */
  lemma Accepts(g: Grammar, p: Params, ic: ItemCert, x: Point, q: nat)
    requires ValidParams(p) && Complete(g, p.t, ic) && q < |g.rules| && g.rules[q].lhs == g.start
    requires |x.input| == 1 && x.input[0].code == END && |x.cfg.stack| == |g.rules[q].rhs|
    requires At(p, ic, x, Item(q, |g.rules[q].rhs|, END))
    ensures Iterate(p, x.cfg, x.input[0]).done
    ensures var tr := Iterate(p, x.cfg, x.input[0]).cfg.trace;
            |tr| > 0 && tr[|tr| - 1] == Accept(p.sem(q, Minors(x.cfg.stack))) && Clean(tr[..|tr| - 1])
  {
    ReductionIsNext(g, p, ic, x, q);
    assert x.cfg.stack[..0] == [] && x.cfg.stack[0..] == x.cfg.stack;
    TurnReduces(p, x.cfg, x.input[0], q);
    ReduceIs(p, x.cfg, q, 0);
    var tr, reduce := x.cfg.trace, Reduce(q, x.cfg.stack);
    assert tr + [reduce] + DestroyAll([]) + [Accept(p.sem(q, Minors(x.cfg.stack)))]
        == tr + [reduce] + [Accept(p.sem(q, Minors(x.cfg.stack)))];
    CleanMore(tr, [reduce]);
    var all := tr + [reduce] + [Accept(p.sem(q, Minors(x.cfg.stack)))];
    assert all[..|all| - 1] == tr + [reduce];
  }

  /** A fresh parser at the first of the tokens. */
  function Opening(tokens: seq<Token>): Point
    requires tokens != []
  {
    Point(Enter(FRESH, tokens[0]), tokens)
  }

  lemma Opens(g: Grammar, p: Params, ic: ItemCert, q: nat, kids: seq<Tree>, last: Token)
    requires Complete(g, p.t, ic) && IsDerivation(g, p.t, Node(q, kids)) && Plain(p.t, Node(q, kids))
    requires Root(g, Node(q, kids)) == g.start && last.code == END
    ensures Among(g, p, ic, Opening(Yields(kids) + [last]), [], q, kids, 0, [last])
  {
    assert kids[0..] == kids;
    assert StartOk(g, p.t, ic);
  }

  /** From the opening to the reduction of the start symbol. */
  lemma ParsesToEnd(g: Grammar, p: Params, ic: ItemCert, q: nat, kids: seq<Tree>, last: Token) returns (z: Point)
    requires ValidParams(p) && Complete(g, p.t, ic) && IsDerivation(g, p.t, Node(q, kids)) && Plain(p.t, Node(q, kids))
    requires Root(g, Node(q, kids)) == g.start && last.code == END && NeedAll(kids) < p.depth
    ensures Reaches(p, Opening(Yields(kids) + [last]), z) && z.input == [last] && Clean(z.cfg.trace)
    ensures Iterate(p, z.cfg, last).done
    ensures var tr := Iterate(p, z.cfg, last).cfg.trace;
            |tr| > 0 && tr[|tr| - 1] == Accept(Value(p.sem, Node(q, kids))) && Clean(tr[..|tr| - 1])
  {
    Opens(g, p, ic, q, kids, last);
    z := ParseKids(g, p, ic, Opening(Yields(kids) + [last]), [], q, kids, 0, [last]);
    AllParsed(g, p, ic, z, [], q, kids, [last]);
    assert z.cfg.stack[0..] == z.cfg.stack;
    Accepts(g, p, ic, z, q);
  }

  /** The trace of a call that has not returned is clean only if that before the call is. */
  lemma CleanBefore(p: Params, cfg: Config, token: Token, m: nat)
    requires ValidParams(p) && Clean(Loop(p, Enter(cfg, token), token, m).cfg.trace)
    ensures Clean(cfg.trace)
  {
    var more := LoopEvents(p, Enter(cfg, token), token, m);
    CleanParts(Enter(cfg, token).trace, more);
    var before := if cfg.started then cfg.trace else cfg.trace + [Start];
    CleanParts(before, [Call(token.code, token.minor)]);
    if !cfg.started { CleanParts(cfg.trace, [Start]); }
  }

  /** Completeness: the tokens of every derivation from the start symbol are accepted, without an error and without
      an overflow if the stack has room for the derivation, and the value of the derivation is reported. */
  lemma ParsesDerived(g: Grammar, p: Params, ic: ItemCert, d: Tree, last: Token)
    requires ValidParams(p) && Complete(g, p.t, ic) && IsDerivation(g, p.t, d) && Plain(p.t, d)
    requires Root(g, d) == g.start && last.code == END && Need(d) < p.depth
    ensures AllHalt(p, FRESH, Yield(d)) && Clean(Feed(p, FRESH, Yield(d)).trace)
    ensures Halts(p, Feed(p, FRESH, Yield(d)), last)
    ensures var tr := Drive(p, Feed(p, FRESH, Yield(d)), last).trace;
            |tr| > 0 && tr[|tr| - 1] == Accept(Value(p.sem, d)) && Clean(tr[..|tr| - 1])
  {
    var tokens := Yield(d) + [last];
    var z, m := EndReached(g, p, ic, d, last);
    assert tokens[..|tokens| - 1] == Yield(d);
    LastCall(p, Feed(p, FRESH, Yield(d)), last, m, z.cfg);
  }

  lemma EndReached(g: Grammar, p: Params, ic: ItemCert, d: Tree, last: Token) returns (z: Point, m: nat)
    requires ValidParams(p) && Complete(g, p.t, ic) && IsDerivation(g, p.t, d) && Plain(p.t, d)
    requires Root(g, d) == g.start && last.code == END && Need(d) < p.depth
    ensures CallsDone(p, FRESH, Yield(d) + [last], z, m) && Clean(z.cfg.trace)
    ensures var out := Iterate(p, z.cfg, last);
            && out.done && |out.cfg.trace| > 0 && out.cfg.trace[|out.cfg.trace| - 1] == Accept(Value(p.sem, d))
            && Clean(out.cfg.trace[..|out.cfg.trace| - 1])
  {
    assert d.Node?;
    var tokens := Yield(d) + [last];
    z := ParsesToEnd(g, p, ic, d.rule, d.kids, last);
    var n: nat :| Leads(Mover(p), Opening(tokens), z, n);
    assert Loop(p, Enter(FRESH, tokens[0]), tokens[0], 0) == Outcome(Opening(tokens).cfg, false);
    assert Before(p, FRESH, 0, Opening(tokens));
    forall cfg, k, x | Before(p, cfg, k, x) ensures MovesOn(p, Mover(p), cfg, k, x) {
      InCallMoves(p, cfg, k, x);
    }
    m := CallsReturn(p, Mover(p), FRESH, 0, Opening(tokens), z, n);
  }

  /** The last call returns after one more iteration. */
  lemma LastCall(p: Params, cfg: Config, last: Token, m: nat, c: Config)
    requires ValidParams(p) && Loop(p, Enter(cfg, last), last, m) == Outcome(c, false)
    requires Iterate(p, c, last).done && Clean(c.trace)
    ensures Clean(cfg.trace) && Halts(p, cfg, last) && Drive(p, cfg, last) == Iterate(p, c, last).cfg
  {
    CleanBefore(p, cfg, last, m);
    LoopOneMore(p, Enter(cfg, last), last, m, c);
    DriveIsLoop(p, cfg, last, m + 1);
  }

  /** So complete tables exist only for grammars in which what is derived has one meaning. */
  lemma OneMeaning(g: Grammar, t: Tables, ic: ItemCert, sem: (nat, seq<Minor>) -> Minor, d: Tree, d': Tree)
    requires Complete(g, t, ic) && Yield(d) == Yield(d') && Root(g, d) == Root(g, d') == g.start
    requires IsDerivation(g, t, d) && Plain(t, d) && IsDerivation(g, t, d') && Plain(t, d')
    ensures Value(sem, d) == Value(sem, d')
  {
    var p := Params(t, Need(d) + Need(d') + 1, sem);
    var minor: Minor :| true;
    var last := Token(END, minor);
    ParsesDerived(g, p, ic, d, last);
    ParsesDerived(g, p, ic, d', last);
  }

  // ---------- The language of the parser ----------

  /** A fresh parser takes all the tokens, and accepts them at the end of the input. */
  ghost predicate Takes(p: Params, tokens: seq<Token>, last: Token) {
    && ValidParams(p) && AllHalt(p, FRESH, tokens) && Clean(Feed(p, FRESH, tokens).trace)
    && Halts(p, Feed(p, FRESH, tokens), last)
    && var tr := Drive(p, Feed(p, FRESH, tokens), last).trace;
       |tr| > 0 && tr[|tr| - 1].Accept? && Clean(tr[..|tr| - 1])
  }

  ghost predicate Derivable(g: Grammar, t: Tables, tokens: seq<Token>) {
    exists d: Tree :: IsDerivation(g, t, d) && Plain(t, d) && Root(g, d) == g.start && Yield(d) == tokens
  }

  lemma TakenIsDerivable(g: Grammar, p: Params, ct: Cert, tokens: seq<Token>, last: Token)
    requires Certified(g, p.t, ct) && PlainReads(p.t) && TokensOk(p.t, tokens) && last.code < p.t.ntoken
    requires Takes(p, tokens, last)
    ensures Derivable(g, p.t, tokens)
  {
    var d := CleanParseDerives(g, p, ct, tokens, last);
  }

  lemma DerivableIsTaken(g: Grammar, t: Tables, sem: (nat, seq<Minor>) -> Minor, ic: ItemCert, tokens: seq<Token>,
                         last: Token)
    returns (depth: nat)
    requires Complete(g, t, ic) && Derivable(g, t, tokens) && last.code == END
    ensures Takes(Params(t, depth, sem), tokens, last)
  {
    var d: Tree :| IsDerivation(g, t, d) && Plain(t, d) && Root(g, d) == g.start && Yield(d) == tokens;
    depth := Need(d) + 1;
    ParsesDerived(g, Params(t, depth, sem), ic, d, last);
  }

  /** With both certificates, and where no state uses a fallback or the wildcard, the parser takes exactly the token
      sequences that the start symbol derives, given enough stack. */
  lemma LanguageIs(g: Grammar, t: Tables, sem: (nat, seq<Minor>) -> Minor, ct: Cert, ic: ItemCert,
                   tokens: seq<Token>, last: Token)
    requires Certified(g, t, ct) && Complete(g, t, ic) && PlainReads(t) && TokensOk(t, tokens) && last.code == END
    ensures (exists depth: nat :: Takes(Params(t, depth, sem), tokens, last)) <==> Derivable(g, t, tokens)
  {
    if depth: nat :| Takes(Params(t, depth, sem), tokens, last) {
      TakenIsDerivable(g, Params(t, depth, sem), ct, tokens, last);
    }
    if Derivable(g, t, tokens) {
      var depth := DerivableIsTaken(g, t, sem, ic, tokens, last);
    }
  }
}
