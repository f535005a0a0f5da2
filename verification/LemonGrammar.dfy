/** Context-free grammars, derivation trees over the tokens actually read, and the certificate
    that ties parser tables to a grammar. */
module LemonGrammar {
  import opened LemonTables
  import opened Names

  /** Semantic values (YYMINORTYPE), of which the driver only makes copies. */
  type Minor(0, ==, !new)

  /** A rule.  Each position of the right-hand side lists the symbols that may stand there: one,
      or several terminals as in `expr PLUS|MINUS expr`. */
  datatype Rule = Rule(lhs: nat, rhs: seq<set<nat>>)

  datatype Grammar = Grammar(rules: seq<Rule>, start: nat)

  /** A derivation.  A leaf is an input token with its value, read as terminal sym. */
  datatype Tree =
    | Leaf(tok: nat, sym: nat, minor: Minor)
    | Node(rule: nat, kids: seq<Tree>)

  /** An input token: its code and its value. */
  datatype Token = Token(code: nat, minor: Minor)

  /** The symbol at the root. */
  function Root(g: Grammar, tr: Tree): nat {
    match tr
    case Leaf(_, sym, _) => sym
    case Node(rule, _) => if rule < |g.rules| then g.rules[rule].lhs else 0
  }

  /** The roots of the trees fit a right-hand side. */
  predicate RootsFit(g: Grammar, trs: seq<Tree>, rhs: seq<set<nat>>) {
    |trs| == |rhs| && forall i | 0 <= i < |trs| :: Root(g, trs[i]) in rhs[i]
  }

  /** Every leaf is a token read as the tables allow, and every inner node is a rule. */
  predicate IsDerivation(g: Grammar, t: Tables, tr: Tree) {
    match tr
    case Leaf(tok, sym, _) => Reads(t, tok, sym)
    case Node(rule, kids) =>
      && rule < |g.rules|
      && RootsFit(g, kids, g.rules[rule].rhs)
      && forall i | 0 <= i < |kids| :: IsDerivation(g, t, kids[i])
  }

  predicate AreDerivations(g: Grammar, t: Tables, trs: seq<Tree>) {
    forall i | 0 <= i < |trs| :: IsDerivation(g, t, trs[i])
  }

  /** Every token is read as itself. */
  predicate Plain(t: Tables, tr: Tree) {
    match tr
    case Leaf(tok, sym, _) => sym == tok < t.ntoken
    case Node(_, kids) => forall i | 0 <= i < |kids| :: Plain(t, kids[i])
  }

  predicate AllPlain(t: Tables, trs: seq<Tree>) {
    forall i | 0 <= i < |trs| :: Plain(t, trs[i])
  }

  /** In no state is a token read as its fallback or as the wildcard. */
  predicate PlainReads(t: Tables) {
    forall s, tok | 0 <= s < t.nstate && 0 <= tok < t.ntoken && Reading(t, s, tok).Some? ::
      Reading(t, s, tok).value == tok
  }

  /** A derivation in which each token is read as some state of these tables reads it. */
  predicate Derives(g: Grammar, t: Tables, tr: Tree) {
    IsDerivation(g, t, tr) && (PlainReads(t) ==> Plain(t, tr))
  }

  predicate AllDerive(g: Grammar, t: Tables, trs: seq<Tree>) {
    forall i | 0 <= i < |trs| :: Derives(g, t, trs[i])
  }

  /** The tokens at the leaves, from left to right. */
  function Yield(tr: Tree): seq<Token>
    decreases tr, 0
  {
    match tr
    case Leaf(tok, _, minor) => [Token(tok, minor)]
    case Node(_, kids) => Yields(kids)
  }

  function Yields(trs: seq<Tree>): seq<Token>
    decreases trs, 1
  {
    if trs == [] then [] else Yields(trs[..|trs| - 1]) + Yield(trs[|trs| - 1])
  }

  /** The value that the semantic actions compute over the derivation, bottom up. */
  function Value(sem: (nat, seq<Minor>) -> Minor, tr: Tree): Minor {
    match tr
    case Leaf(_, _, minor) => minor
    case Node(rule, kids) => sem(rule, seq(|kids|, i requires 0 <= i < |kids| => Value(sem, kids[i])))
  }

  lemma {:induction false} YieldsConcat(a: seq<Tree>, b: seq<Tree>)
    ensures Yields(a + b) == Yields(a) + Yields(b)
    decreases |b|
  {
    if b == [] {
      assert a + b == a;
    } else {
      var n := |b| - 1;
      YieldsConcat(a, b[..n]);
      assert (a + b)[..|a + b| - 1] == a + b[..n];
      assert (a + b)[|a + b| - 1] == b[n];
    }
  }

  lemma YieldsOne(tr: Tree)
    ensures Yields([tr]) == Yield(tr)
  {
    assert [tr][..0] == [];
  }

  // ---------- The certificate ----------

  /** For each state, what is known about the top of the stack, nearest element first: the grammar
      symbols that the element may stand for, and the states that may lie just below it. */
  datatype Cert = Cert(past: seq<seq<set<nat>>>, below: seq<seq<set<nat>>>)

  predicate CertShape(t: Tables, ct: Cert) {
    && |ct.past| == |ct.below| == t.nstate
    && (forall s | 0 <= s < t.nstate :: |ct.below[s]| == |ct.past[s]|)
    && WellFormed(t) && ct.past[0] == []
  }

  /** Pushing symbol x on top of state s makes what is known about state s2 true. */
  predicate EdgeOk(t: Tables, ct: Cert, s: nat, x: nat, s2: nat)
    requires CertShape(t, ct)
  {
    && s < t.nstate && 0 < s2 < t.nstate
    && |ct.past[s2]| <= |ct.past[s]| + 1
    && (forall k | 0 <= k < |ct.past[s2]| ::
          if k == 0 then x in ct.past[s2][0] && s in ct.below[s2][0]
          else ct.past[s][k - 1] <= ct.past[s2][k] && ct.below[s][k - 1] <= ct.below[s2][k])
  }

  /** The states that a reduction of m symbols may expose below state s. */
  function Exposed(t: Tables, ct: Cert, s: nat, m: nat): set<nat>
    requires CertShape(t, ct) && s < t.nstate && m <= |ct.past[s]|
  {
    if m == 0 then {s} else ct.below[s][m - 1]
  }

  /** The goto of state e on symbol a is there, and accepts only the start symbol at the bottom. */
  predicate GotoOk(g: Grammar, t: Tables, ct: Cert, e: nat, a: nat)
    requires CertShape(t, ct)
  {
    && GotoDefined(t, e, a)
    && var act := FindReduceAction(t, e, a);
       if act < t.nstate then EdgeOk(t, ct, e, a, act)
       else act == t.AcceptAction() && a == g.start && e == 0
  }

  /** State s may reduce by rule r: the right-hand side is known to be on the stack. */
  predicate ReduceOk(g: Grammar, t: Tables, ct: Cert, s: nat, r: nat)
    requires CertShape(t, ct) && s < t.nstate && r < |g.rules|
  {
    var rhs := g.rules[r].rhs;
    && |rhs| <= |ct.past[s]|
    && (forall k | 0 <= k < |rhs| :: ct.past[s][k] <= rhs[|rhs| - 1 - k])
    && forall e | e in Exposed(t, ct, s, |rhs|) :: GotoOk(g, t, ct, e, g.rules[r].lhs)
  }

  predicate ActionOk(g: Grammar, t: Tables, ct: Cert, s: nat, tok: nat)
    requires CertShape(t, ct) && s < t.nstate && |g.rules| == |t.rules|
  {
    var act := DenseAction(t, s, tok);
    if act < t.nstate then
      match Reading(t, s, tok)
      case Some(x) => EdgeOk(t, ct, s, x, act)
      case None => false
    else if act < t.nstate + |t.rules| then ReduceOk(g, t, ct, s, act - t.nstate)
    else act == t.ErrorAction()
  }

  /** The tables belong to the grammar, as far as the certificate shows. */
  predicate Certified(g: Grammar, t: Tables, ct: Cert) {
    && CertShape(t, ct)
    && |g.rules| == |t.rules|
    && (forall r | 0 <= r < |g.rules| ::
          t.rules[r].lhs == g.rules[r].lhs && t.rules[r].nrhs == |g.rules[r].rhs|)
    && (forall s, tok | 0 <= s < t.nstate && 0 <= tok < t.ntoken :: ActionOk(g, t, ct, s, tok))
  }
}
