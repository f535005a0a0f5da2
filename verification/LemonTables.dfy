/**
  The parser tables of a Lemon-generated parser (sqlcipher/lempar.c, instantiated in
  sqlcipher/parse.c) and the two lookup functions over them, for arbitrary tables.
 */
module LemonTables {
  import opened Names

  /** One element of yyRuleInfo. */
  datatype RuleInfo = RuleInfo(lhs: nat, nrhs: nat)

  /** The generated tables.  shiftOfst has YY_SHIFT_COUNT+1 elements, reduceOfst has
      YY_REDUCE_COUNT+1, and action and lookahead have YY_ACTTAB_COUNT.  Token codes are below
      ntoken, and nocode is YYNOCODE. */
  datatype Tables = Tables(
    nstate: nat, ntoken: nat, nocode: nat, wildcard: nat,
    action: seq<nat>, lookahead: seq<nat>, deflt: seq<nat>,
    shiftOfst: seq<int>, shiftUseDflt: int,
    reduceOfst: seq<int>, reduceUseDflt: int,
    fallback: seq<nat>, rules: seq<RuleInfo>)
  {
    function ErrorAction(): nat { nstate + |rules| }
    function AcceptAction(): nat { nstate + |rules| + 1 }

    /** The token that tok falls back to, or 0. */
    function FallbackOf(tok: nat): nat {
      if tok < |fallback| then fallback[tok] else 0
    }
  }

  /** The sizes that the generator guarantees.  The last two lines are what makes the lookup safe:
      YY_SHIFT_MAX + YYWILDCARD < YY_ACTTAB_COUNT, and a fallback target has no fallback. */
  predicate WellFormed(t: Tables) {
    && t.nstate > 0
    && t.ntoken <= t.nocode
    && |t.lookahead| == |t.action|
    && |t.deflt| == t.nstate
    && (forall s | 0 <= s < |t.shiftOfst| :: t.shiftOfst[s] + t.wildcard < |t.action|)
    && (forall a | 0 <= a < |t.fallback| :: t.FallbackOf(t.fallback[a]) == 0)
  }

  /** yy_find_shift_action. */
  function FindShiftAction(t: Tables, stateno: nat, iLookAhead: nat): nat
    requires WellFormed(t) && stateno < t.nstate
    decreases t.FallbackOf(iLookAhead) != 0
  {
    if stateno >= |t.shiftOfst| || t.shiftOfst[stateno] == t.shiftUseDflt then
      t.deflt[stateno]
    else
      var i := t.shiftOfst[stateno] + iLookAhead;
      if i < 0 || i >= |t.action| || t.lookahead[i] != iLookAhead then
        if iLookAhead > 0 then
          if iLookAhead < |t.fallback| && t.fallback[iLookAhead] != 0 then
            FindShiftAction(t, stateno, t.fallback[iLookAhead])
          else
            var j := i - iLookAhead + t.wildcard;
            if j >= 0 && t.lookahead[j] == t.wildcard then t.action[j] else t.deflt[stateno]
        else
          t.deflt[stateno]
      else
        t.action[i]
  }

  /** The asserts of yy_find_reduce_action. */
  predicate GotoDefined(t: Tables, stateno: nat, sym: nat) {
    && |t.lookahead| == |t.action|
    && stateno < |t.reduceOfst|
    && t.reduceOfst[stateno] != t.reduceUseDflt
    && sym != t.nocode
    && 0 <= t.reduceOfst[stateno] + sym < |t.action|
    && t.lookahead[t.reduceOfst[stateno] + sym] == sym
  }

  /** yy_find_reduce_action. */
  function FindReduceAction(t: Tables, stateno: nat, sym: nat): nat
    requires GotoDefined(t, stateno, sym)
  {
    t.action[t.reduceOfst[stateno] + sym]
  }

  // ---------- The uncompressed action function ----------

  predicate HasEntry(t: Tables, s: nat, a: nat) {
    && |t.lookahead| == |t.action|
    && s < |t.shiftOfst| && t.shiftOfst[s] != t.shiftUseDflt
    && 0 <= t.shiftOfst[s] + a < |t.action|
    && t.lookahead[t.shiftOfst[s] + a] == a
  }

  /** The action that state s has of its own for terminal a, if it has one. */
  function EntryFor(t: Tables, s: nat, a: nat): Option<nat> {
    if HasEntry(t, s, a) then Some(t.action[t.shiftOfst[s] + a]) else None
  }

  /** As which terminal state s reads the token: as itself, as its fallback or as the wildcard, in
      this order of preference; None when only the default action is left. */
  function Reading(t: Tables, s: nat, tok: nat): (x: Option<nat>)
    ensures x.Some? ==> EntryFor(t, s, x.value).Some? && Reads(t, tok, x.value)
    ensures x.None? ==> EntryFor(t, s, tok).None?
  {
    var fallback := t.FallbackOf(tok);
    if EntryFor(t, s, tok).Some? then Some(tok)
    else if tok > 0 && fallback != 0 && EntryFor(t, s, fallback).Some? then Some(fallback)
    else if tok > 0 && EntryFor(t, s, t.wildcard).Some? then Some(t.wildcard)
    else None
  }

  /** The action of state s on a token: that of the terminal it is read as, else the default. */
  function DenseAction(t: Tables, s: nat, tok: nat): nat
    requires s < |t.deflt|
  {
    match Reading(t, s, tok)
    case Some(x) => EntryFor(t, s, x).value
    case None => t.deflt[s]
  }

  /** The compressed lookup computes the dense action function. */
  lemma LookupIsDense(t: Tables, s: nat, tok: nat)
    requires WellFormed(t) && s < t.nstate
    ensures FindShiftAction(t, s, tok) == DenseAction(t, s, tok)
  {
    var fb := t.FallbackOf(tok);
    if fb != 0 {
      assert t.FallbackOf(fb) == 0;
    }
  }

  /** A lookahead token may stand for terminal x of the grammar. */
  predicate Reads(t: Tables, tok: nat, x: nat) {
    || x == tok
    || (tok > 0 && t.FallbackOf(tok) != 0 && x == t.FallbackOf(tok))
    || (tok > 0 && x == t.wildcard)
  }
}
