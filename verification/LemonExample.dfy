/** Small tables with a fallback and a wildcard, and the same tables without, that pass the certificates. */
module LemonExample {
  import opened LemonTables
  import opened Names
  import opened LemonGrammar
  import opened LemonDriver
  import opened LemonItems
  import opened LemonSoundness
  import opened LemonTermination
  import opened LemonTheorems

  // Terminals: 0 end, 1 ID, 2 KEYWORD (falls back to ID), 3 ANY.  Nonterminals: 4 start, 5 list.
  // start ::= list.   list ::= ID.   list ::= list ID.   list ::= list ANY.
  const GRAMMAR := Grammar([Rule(4, [{5}]), Rule(5, [{1}]), Rule(5, [{5}, {1}]), Rule(5, [{5}, {3}])], 4)

  const TABLES := Tables(
    5, 4, 6, 3,
    [9, 1, 10, 2, 3, 9, 4], [6, 1, 4, 5, 1, 6, 3], [9, 6, 5, 7, 8],
    [0, -70, 3], -70,
    [-2], -169,
    [0, 0, 1, 0], [RuleInfo(4, 1), RuleInfo(5, 1), RuleInfo(5, 2), RuleInfo(5, 2)])

  const CERT := Cert([[], [{1}], [{5}], [{1}, {5}], [{3}, {5}]], [[], [{0}], [{0}], [{2}, {0}], [{2}, {0}]])

  const RANK := Rank(0, (s, tok) => if s == 2 then 0 else 1)

  /** The same without fallback and wildcard. */
  const PLAIN := TABLES.(fallback := [], wildcard := 0)

  predicate Variant(t: Tables) {
    t == TABLES || t == PLAIN
  }

  lemma Rows(t: Tables, s: nat, a: nat)
    requires Variant(t) && s < 5
    ensures WellFormed(t)
    ensures EntryFor(t, s, a) ==
              if s == 0 && a == 1 then Some(1)
              else if s == 2 && a == 1 then Some(3)
              else if s == 2 && a == 3 then Some(4)
              else None
  {
  }

  lemma ExampleEdges(t: Tables)
    requires Variant(t)
    ensures CertShape(t, CERT)
    ensures EdgeOk(t, CERT, 0, 1, 1) && EdgeOk(t, CERT, 0, 5, 2)
    ensures EdgeOk(t, CERT, 2, 1, 3) && EdgeOk(t, CERT, 2, 3, 4)
  {
    Rows(t, 0, 0);
  }

  lemma ExampleGotos(t: Tables)
    requires Variant(t)
    ensures CertShape(t, CERT)
    ensures GotoDefined(t, 0, 4) && FindReduceAction(t, 0, 4) == t.AcceptAction()
    ensures GotoDefined(t, 0, 5) && FindReduceAction(t, 0, 5) == 2
    ensures GotoOk(GRAMMAR, t, CERT, 0, 4) && GotoOk(GRAMMAR, t, CERT, 0, 5)
  {
    ExampleEdges(t);
  }

  lemma ExampleReductions(t: Tables)
    requires Variant(t)
    ensures CertShape(t, CERT)
    ensures ReduceOk(GRAMMAR, t, CERT, 1, 1) && ReduceOk(GRAMMAR, t, CERT, 2, 0)
    ensures ReduceOk(GRAMMAR, t, CERT, 3, 2) && ReduceOk(GRAMMAR, t, CERT, 4, 3)
  {
    ExampleGotos(t);
  }

  lemma ExampleActions(t: Tables, tok: nat)
    requires Variant(t) && tok < 4
    ensures DenseAction(t, 0, tok) == if tok == 1 || (t == TABLES && tok == 2) then 1 else 9
    ensures DenseAction(t, 1, tok) == 6
    ensures DenseAction(t, 2, tok) == if tok == 0 then 5 else if tok == 3 then 4
                                      else if t == TABLES || tok == 1 then 3 else 5
    ensures DenseAction(t, 3, tok) == 7 && DenseAction(t, 4, tok) == 8
  {
    forall s, a | 0 <= s < 5 && 0 <= a < 4 { Rows(t, s, a); }
    assert TABLES.fallback != PLAIN.fallback;
  }

  lemma ExampleFirstState(t: Tables, tok: nat)
    requires Variant(t) && tok < 4
    ensures CertShape(t, CERT)
    ensures ActionOk(GRAMMAR, t, CERT, 0, tok)
  {
    forall a | 0 <= a < 4 { Rows(t, 0, a); }
    ExampleEdges(t);
    ExampleActions(t, tok);
  }

  /** As which terminal state 2 reads a token. */
  lemma ListReads(t: Tables, tok: nat)
    requires Variant(t) && tok < 4
    ensures Reading(t, 2, tok) == if tok == 1 || tok == 3 then Some(tok)
                                  else if t == TABLES && tok == 2 then Some(1) else None
  {
    forall a | 0 <= a < 4 { Rows(t, 2, a); }
    assert TABLES.fallback != PLAIN.fallback;
  }

  lemma ExampleListState(t: Tables, tok: nat)
    requires Variant(t) && tok < 4
    ensures CertShape(t, CERT)
    ensures ActionOk(GRAMMAR, t, CERT, 2, tok)
  {
    ListReads(t, tok);
    ExampleActions(t, tok);
    if DenseAction(t, 2, tok) < 5 { ExampleEdges(t); } else { ExampleReductions(t); }
  }

  lemma ExampleReduces(t: Tables, s: nat, tok: nat)
    requires Variant(t) && (s == 1 || s == 3 || s == 4) && tok < 4
    ensures CertShape(t, CERT)
    ensures ActionOk(GRAMMAR, t, CERT, s, tok)
  {
    ExampleActions(t, tok);
    ExampleReductions(t);
  }

  lemma ExampleState(t: Tables, s: nat, tok: nat)
    requires Variant(t) && s < 5 && tok < 4
    ensures CertShape(t, CERT)
    ensures ActionOk(GRAMMAR, t, CERT, s, tok)
  {
    if s == 0 {
      ExampleFirstState(t, tok);
    } else if s == 2 {
      ExampleListState(t, tok);
    } else {
      ExampleReduces(t, s, tok);
    }
  }

  lemma ExampleRank(t: Tables, s: nat, tok: nat)
    requires Variant(t) && s < 5 && tok < 4
    ensures CertShape(t, CERT)
    ensures RankedAt(GRAMMAR, t, CERT, RANK, s, tok)
  {
    ExampleActions(t, tok);
    ExampleGotos(t);
  }

  /** Both certificates hold, so the theorems about soundness and termination apply to these tables. */
  lemma ExampleCertified(t: Tables)
    requires Variant(t)
    ensures Certified(GRAMMAR, t, CERT) && Ranked(GRAMMAR, t, CERT, RANK)
  {
    ExampleEdges(t);
    forall s, tok | 0 <= s < 5 && 0 <= tok < 4
      ensures ActionOk(GRAMMAR, t, CERT, s, tok) && RankedAt(GRAMMAR, t, CERT, RANK, s, tok)
    {
      ExampleState(t, s, tok);
      ExampleRank(t, s, tok);
    }
  }

  // ---------- The items ----------

  /** What may follow a list. */
  predicate Follows(b: nat) {
    b == 0 || b == 1 || b == 3
  }

  function First(x: nat): set<nat> {
    if x < 4 then {x} else {1}
  }

  function ItemsOf(s: nat): set<Item> {
    match s
    case 0 => {Item(0, 0, 0), Item(1, 0, 0), Item(1, 0, 1), Item(1, 0, 3), Item(2, 0, 0), Item(2, 0, 1), Item(2, 0, 3),
               Item(3, 0, 0), Item(3, 0, 1), Item(3, 0, 3)}
    case 1 => {Item(1, 1, 0), Item(1, 1, 1), Item(1, 1, 3)}
    case 2 => {Item(0, 1, 0), Item(2, 1, 0), Item(2, 1, 1), Item(2, 1, 3), Item(3, 1, 0), Item(3, 1, 1), Item(3, 1, 3)}
    case 3 => {Item(2, 2, 0), Item(2, 2, 1), Item(2, 2, 3)}
    case _ => {Item(3, 2, 0), Item(3, 2, 1), Item(3, 2, 3)}
  }

  const ITEMS := ItemCert([ItemsOf(0), ItemsOf(1), ItemsOf(2), ItemsOf(3), ItemsOf(4)], {}, First)

  lemma ItemsIs(s: nat, it: Item)
    requires s < 5
    ensures ITEMS.Has(s, it) <==>
              match s
              case 0 => it.dot == 0 && it.rule < 4 && if it.rule == 0 then it.look == 0 else Follows(it.look)
              case 1 => it.rule == 1 && it.dot == 1 && Follows(it.look)
              case 2 => it.dot == 1 && if it.rule == 0 then it.look == 0
                                       else (it.rule == 2 || it.rule == 3) && Follows(it.look)
              case 3 => it.rule == 2 && it.dot == 2 && Follows(it.look)
              case _ => it.rule == 3 && it.dot == 2 && Follows(it.look)
  {
    assert ITEMS.items[s] == ItemsOf(s);
  }

  /** Nothing is nullable, so what follows is the first symbol of the rest, or what follows the rule. */
  lemma ComesNext(r: nat, a: nat, b: nat)
    requires r < 4 && GRAMMAR.rules[r].rhs[0] == {5}
    ensures ITEMS.MayCome(GRAMMAR.rules[r].rhs[1..], a, b) ==>
              if r == 0 then b == a else if r == 2 then b == 1 else b == 3
  {
    var rest := GRAMMAR.rules[r].rhs[1..];
    if r == 0 {
      assert rest == [];
    } else {
      var x := if r == 2 then 1 else 3;
      assert rest == [{x}] && !ITEMS.SomeNullable({x});
      assert ITEMS.SomeFirst({x}, b) ==> b == x;
      assert rest[1..] == [];
    }
  }

  /** Behind the dot at the start of a rule stands ID or a list. */
  lemma ExampleBegin(t: Tables, it: Item)
    requires Variant(t) && ITEMS.Has(0, it)
    ensures ItemOk(GRAMMAR, t, ITEMS, 0, it)
  {
    ItemsIs(0, it);
    Rows(t, 0, 1);
    ExampleGotos(t);
    var it' := it.(dot := 1);
    ItemsIs(1, it');
    ItemsIs(2, it');
    if it.rule != 1 {
      forall q, b | 0 <= q < 4 && GRAMMAR.rules[q].lhs == 5 && 0 <= b < 4
                    && ITEMS.MayCome(GRAMMAR.rules[it.rule].rhs[it.dot + 1..], it.look, b)
        ensures ITEMS.Has(0, Item(q, 0, b))
      {
        ComesNext(it.rule, it.look, b);
        ItemsIs(0, Item(q, 0, b));
      }
    }
  }

  /** In the other states a rule is complete, or a terminal comes. */
  lemma ExampleGoOn(t: Tables, s: nat, it: Item)
    requires Variant(t) && 0 < s < 5 && ITEMS.Has(s, it)
    ensures ItemOk(GRAMMAR, t, ITEMS, s, it)
  {
    ItemsIs(s, it);
    Rows(t, s, 1);
    Rows(t, s, 3);
    ExampleActions(t, it.look);
    ItemsIs(3, it.(dot := 2));
    ItemsIs(4, it.(dot := 2));
  }

  lemma ExampleFirst(t: Tables, r: nat)
    requires Variant(t) && r < 4
    ensures FirstOk(GRAMMAR, t, ITEMS, r)
  {
    var rhs := GRAMMAR.rules[r].rhs;
    var x := if r == 1 then 1 else 5;
    assert rhs[0] == {x} && !ITEMS.SomeNullable({x});
    forall b | 0 <= b < 4 && ITEMS.StartsWith(rhs, b) ensures b in First(GRAMMAR.rules[r].lhs) {
      assert ITEMS.SomeFirst({x}, b);
    }
  }

  /** The items are a certificate of completeness, */
  lemma ExampleComplete(t: Tables)
    requires Variant(t)
    ensures Complete(GRAMMAR, t, ITEMS)
  {
    ExampleGotos(t);
    forall r | 0 <= r < 4 ensures FirstOk(GRAMMAR, t, ITEMS, r) { ExampleFirst(t, r); }
    forall s, it | 0 <= s < 5 && it in ITEMS.items[s] ensures ItemOk(GRAMMAR, t, ITEMS, s, it) {
      if s == 0 { ExampleBegin(t, it); } else { ExampleGoOn(t, s, it); }
    }
    ItemsIs(0, Item(0, 0, END));
  }

  /** and without fallback and wildcard the tables take exactly what the grammar derives. */
  lemma ExamplePlain()
    ensures PlainReads(PLAIN)
  {
    forall s, tok | 0 <= s < 5 && 0 <= tok < 4 && Reading(PLAIN, s, tok).Some?
      ensures Reading(PLAIN, s, tok).value == tok
    {
      Rows(PLAIN, s, tok);
      Rows(PLAIN, s, 0);
    }
  }

  /** KEYWORD is read as ID. */
  lemma ExampleShift(p: Params, minor: Minor)
    requires p.t == TABLES && p.depth >= 2
    ensures Halts(p, FRESH, Token(2, minor))
    ensures var c := Drive(p, FRESH, Token(2, minor));
            c.started && c.stack == [Entry(1, 2, minor)] && Clean(c.trace)
  {
    Rows(TABLES, 0, 0);
    LookupIsDense(TABLES, 0, 2);
    var kw, e := Token(2, minor), Entry(1, 2, minor);
    var c := Enter(FRESH, kw);
    assert Iterate(p, c, kw) == Outcome(c.(stack := [e], errcnt := -2, trace := c.trace + [Shift(e)]), true);
    assert Loop(p, c, kw, 1) == Iterate(p, c, kw);
    DriveIsLoop(p, FRESH, kw, 1);
  }

  /** At the end of input a list is built from the first ID. */
  lemma ExampleReduce(p: Params, c: Config, end: Token)
    requires p.t == TABLES && p.depth >= 2 && end.code == 0
    requires c.started && |c.stack| == 1 && c.stack[0].state == 1
    ensures WellFormed(TABLES)
    ensures var e := Entry(2, 5, p.sem(1, Minors(c.stack)));
            Iterate(p, c, end)
            == Outcome(c.(stack := [e], trace := c.trace + [Reduce(1, c.stack)] + [Goto(e)]), false)
  {
    Rows(TABLES, 0, 0);
    ExampleActions(TABLES, 0);
    ExampleGotos(TABLES);
    LookupIsDense(TABLES, 1, 0);
    assert c.stack[..0] == [] && c.stack[0..] == c.stack;
  }

  /** The list is reduced to the start symbol, and accepted. */
  lemma ExampleAccept(p: Params, c: Config, end: Token)
    requires p.t == TABLES && p.depth >= 2 && end.code == 0
    requires c.started && |c.stack| == 1 && c.stack[0].state == 2
    ensures WellFormed(TABLES) && Iterate(p, c, end).done
    ensures Iterate(p, c, end).cfg.trace
         == c.trace + [Reduce(0, c.stack)] + DestroyAll([]) + [Accept(p.sem(0, Minors(c.stack)))]
  {
    Rows(TABLES, 0, 0);
    ExampleActions(TABLES, 0);
    ExampleGotos(TABLES);
    LookupIsDense(TABLES, 2, 0);
    assert c.stack[..0] == [] && c.stack[0..] == c.stack;
  }

  lemma TwoTurns(p: Params, c: Config, end: Token)
    requires ValidParams(p) && !Iterate(p, c, end).done && Iterate(p, Iterate(p, c, end).cfg, end).done
    ensures Loop(p, c, end, 2) == Iterate(p, Iterate(p, c, end).cfg, end)
  {
    var c' := Iterate(p, c, end).cfg;
    assert Loop(p, c', end, 1) == Iterate(p, c', end);
    assert Loop(p, c, end, 2) == Loop(p, c', end, 1);
  }

  lemma QuietEnd(tr: seq<Event>, built: seq<Entry>, e: Entry, done: seq<Entry>, value: Minor)
    requires Clean(tr)
    ensures var all := tr + [Reduce(1, built)] + [Goto(e)] + [Reduce(0, done)] + DestroyAll([]) + [Accept(value)];
            |all| > 0 && all[|all| - 1].Accept? && Clean(all[..|all| - 1])
  {
    var all := tr + [Reduce(1, built)] + [Goto(e)] + [Reduce(0, done)] + DestroyAll([]) + [Accept(value)];
    assert all[..|all| - 1] == tr + [Reduce(1, built), Goto(e), Reduce(0, done)];
  }

  /** At the end of input the list is accepted. */
  lemma ExampleEnd(p: Params, cfg: Config, minor: Minor)
    requires p.t == TABLES && p.depth >= 2
    requires cfg.started && cfg.stack == [Entry(1, 2, minor)] && Clean(cfg.trace)
    ensures WellFormed(TABLES) && Halts(p, cfg, Token(0, minor))
    ensures var tr := Drive(p, cfg, Token(0, minor)).trace;
            |tr| > 0 && tr[|tr| - 1].Accept? && Clean(tr[..|tr| - 1])
  {
    var end := Token(0, minor);
    var c := Enter(cfg, end);
    ExampleReduce(p, c, end);
    var c' := Iterate(p, c, end).cfg;
    ExampleAccept(p, c', end);
    TwoTurns(p, c, end);
    DriveIsLoop(p, cfg, end, 2);
    QuietEnd(c.trace, c.stack, c'.stack[0], c'.stack, p.sem(0, Minors(c'.stack)));
  }
}
