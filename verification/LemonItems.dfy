/** A certificate for the other direction: the tables have an action for everything that the grammar allows. */
module LemonItems {
  import opened LemonTables
  import opened LemonGrammar
  import opened Names

  /** The end of the input, as the code of the last call. */
  const END: nat := 0

  /** Rule `rule` has been parsed up to position dot of its right-hand side, and token `look` may follow it. */
  datatype Item = Item(rule: nat, dot: nat, look: nat)

  /** The items of each state, the symbols that derive no token at all, and the tokens that a symbol may begin
      with. */
  datatype ItemCert = ItemCert(items: seq<set<Item>>, nullable: set<nat>, first: nat -> set<nat>) {

    predicate SomeNullable(xs: set<nat>) {
      exists x :: x in xs && x in nullable
    }

    predicate SomeFirst(xs: set<nat>, b: nat) {
      exists x :: x in xs && b in first(x)
    }

    predicate AllNullable(rhs: seq<set<nat>>) {
      rhs == [] || (SomeNullable(rhs[0]) && AllNullable(rhs[1..]))
    }

    /** What is derived from rhs may begin with token b. */
    predicate StartsWith(rhs: seq<set<nat>>, b: nat) {
      rhs != [] && (SomeFirst(rhs[0], b) || (SomeNullable(rhs[0]) && StartsWith(rhs[1..], b)))
    }

    /** Where rhs and then token a are expected, token b may come next. */
    predicate MayCome(rhs: seq<set<nat>>, a: nat, b: nat) {
      StartsWith(rhs, b) || (AllNullable(rhs) && b == a)
    }

    /** Those of the first n tokens that may come next. */
    function Coming(rhs: seq<set<nat>>, a: nat, n: nat): set<nat> {
      set b: nat | b < n && MayCome(rhs, a, b)
    }

    predicate Has(s: nat, it: Item) {
      s < |items| && it in items[s]
    }
  }

  // ---------- The certificate ----------

  /** nullable and first are closed under rule r. */
  predicate FirstOk(g: Grammar, t: Tables, ic: ItemCert, r: nat)
    requires r < |g.rules|
  {
    var Rule(lhs, rhs) := g.rules[r];
    && (ic.AllNullable(rhs) ==> lhs in ic.nullable)
    && (forall b | 0 <= b < t.ntoken && ic.StartsWith(rhs, b) :: b in ic.first(lhs))
  }

  /** The terminal behind the dot is shifted. */
  predicate ShiftOk(t: Tables, ic: ItemCert, s: nat, it: Item, x: nat) {
    match EntryFor(t, s, x)
    case Some(s2) => s2 < t.nstate && ic.Has(s2, it.(dot := it.dot + 1))
    case None => false
  }

  /** The nonterminal behind the dot has a goto, and its rules are begun. */
  predicate NonterminalOk(g: Grammar, t: Tables, ic: ItemCert, s: nat, it: Item, x: nat)
    requires it.rule < |g.rules| && it.dot < |g.rules[it.rule].rhs|
  {
    && GotoDefined(t, s, x)
    && FindReduceAction(t, s, x) < t.nstate
    && ic.Has(FindReduceAction(t, s, x), it.(dot := it.dot + 1))
    && forall q, b | 0 <= q < |g.rules| && g.rules[q].lhs == x && 0 <= b < t.ntoken
                     && ic.MayCome(g.rules[it.rule].rhs[it.dot + 1..], it.look, b) ::
         ic.Has(s, Item(q, 0, b))
  }

  predicate ItemOk(g: Grammar, t: Tables, ic: ItemCert, s: nat, it: Item)
    requires s < |t.deflt|
  {
    && it.rule < |g.rules| && it.dot <= |g.rules[it.rule].rhs|
    && if it.dot == |g.rules[it.rule].rhs| then
         DenseAction(t, s, it.look) == t.nstate + it.rule
       else
         forall x | x in g.rules[it.rule].rhs[it.dot] ::
           if x < t.ntoken then ShiftOk(t, ic, s, it, x) else NonterminalOk(g, t, ic, s, it, x)
  }

  predicate StartOk(g: Grammar, t: Tables, ic: ItemCert) {
    && GotoDefined(t, 0, g.start) && FindReduceAction(t, 0, g.start) == t.AcceptAction()
    && forall q | 0 <= q < |g.rules| && g.rules[q].lhs == g.start :: ic.Has(0, Item(q, 0, END))
  }

  predicate Complete(g: Grammar, t: Tables, ic: ItemCert) {
    && WellFormed(t) && |ic.items| == t.nstate && |g.rules| == |t.rules| && g.start >= t.ntoken > END
    && (forall r | 0 <= r < |g.rules| ::
          t.rules[r].lhs == g.rules[r].lhs >= t.ntoken && t.rules[r].nrhs == |g.rules[r].rhs|)
    && (forall r | 0 <= r < |g.rules| :: FirstOk(g, t, ic, r))
    && (forall x | 0 <= x < t.ntoken :: x in ic.first(x))
    && (forall s, it | 0 <= s < t.nstate && it in ic.items[s] :: ItemOk(g, t, ic, s, it))
    && StartOk(g, t, ic)
  }

  // ---------- What a derivation begins with ----------

  /** What symbol x derives. */
  predicate BeginsAs(t: Tables, ic: ItemCert, x: nat, tokens: seq<Token>) {
    if tokens == [] then x in ic.nullable else tokens[0].code < t.ntoken && tokens[0].code in ic.first(x)
  }

  /** What a right-hand side derives. */
  predicate BeginAs(t: Tables, ic: ItemCert, rhs: seq<set<nat>>, tokens: seq<Token>) {
    if tokens == [] then ic.AllNullable(rhs) else tokens[0].code < t.ntoken && ic.StartsWith(rhs, tokens[0].code)
  }

  lemma {:induction false} TreeBegins(g: Grammar, t: Tables, ic: ItemCert, tr: Tree)
    requires Complete(g, t, ic) && IsDerivation(g, t, tr) && Plain(t, tr)
    ensures BeginsAs(t, ic, Root(g, tr), Yield(tr))
    decreases tr, 0
  {
    match tr
    case Leaf(_, _, _) =>
    case Node(rule, kids) =>
      KidsBegin(g, t, ic, kids, g.rules[rule].rhs);
      assert FirstOk(g, t, ic, rule);
  }

  lemma {:induction false} KidsBegin(g: Grammar, t: Tables, ic: ItemCert, kids: seq<Tree>, rhs: seq<set<nat>>)
    requires Complete(g, t, ic) && AreDerivations(g, t, kids) && AllPlain(t, kids) && RootsFit(g, kids, rhs)
    ensures BeginAs(t, ic, rhs, Yields(kids))
    decreases kids, 1
  {
    if kids != [] {
      var k, more := kids[0], kids[1..];
      TreeBegins(g, t, ic, k);
      KidsBegin(g, t, ic, more, rhs[1..]);
      YieldsFirst(kids);
      BeginJoin(t, ic, Root(g, k), Yield(k), rhs, Yields(more));
    }
  }

  lemma YieldsFirst(kids: seq<Tree>)
    requires kids != []
    ensures Yields(kids) == Yield(kids[0]) + Yields(kids[1..])
  {
    assert kids == [kids[0]] + kids[1..];
    YieldsConcat([kids[0]], kids[1..]);
    YieldsOne(kids[0]);
  }

  lemma BeginJoin(t: Tables, ic: ItemCert, x: nat, u: seq<Token>, rhs: seq<set<nat>>, v: seq<Token>)
    requires rhs != [] && x in rhs[0] && BeginsAs(t, ic, x, u) && BeginAs(t, ic, rhs[1..], v)
    ensures BeginAs(t, ic, rhs, u + v)
  {
    if u == [] {
      assert u + v == v && ic.SomeNullable(rhs[0]);
    } else {
      assert (u + v)[0] == u[0] && ic.SomeFirst(rhs[0], u[0].code);
    }
  }

  /** The token behind a part of a right-hand side may come there. */
  lemma FollowerMayCome(g: Grammar, t: Tables, ic: ItemCert, kids: seq<Tree>, rhs: seq<set<nat>>, rest: seq<Token>)
    requires Complete(g, t, ic) && AreDerivations(g, t, kids) && AllPlain(t, kids) && RootsFit(g, kids, rhs)
    requires rest != [] && rest[0].code < t.ntoken
    ensures var next := (Yields(kids) + rest)[0].code;
            next in ic.Coming(rhs, rest[0].code, t.ntoken)
  {
    KidsBegin(g, t, ic, kids, rhs);
    if Yields(kids) == [] { assert Yields(kids) + rest == rest; }
  }
}
