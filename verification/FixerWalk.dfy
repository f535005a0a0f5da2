/** The database fixers (sqlcipher/src/attach.c): mutually recursive walks that bind table references
    in place. */
module FixerWalk {
  import opened FixerTree
  import opened FixerCoverage
  import opened Names

  /** The check and the two writes for one reference. */
  method FixItem(fix: Fixer, pItem: SrcItem, ghost walk: Walk, ghost rest: seq<SrcItem>) returns (rc: int)
    requires Reached(fix, walk, [pItem] + rest)
    modifies walk.v, fix.pParse
    ensures Outcome(fix, walk, rest, rc)
  {
    ghost var at := |walk.v| - |rest| - 1;
    assert walk.v[at..][0] == pItem && walk.v[at..][1..] == rest;
    assert walk.Visit(fix, at);
    ghost var was := Snapshot(walk.v);
    assert was[at] == FieldsOf(pItem);
    if pItem.zDatabase.Some? && !SameName(pItem.zDatabase.value, fix.zDb) {
      fix.pParse.errors := fix.pParse.errors + [pItem.zDatabase.value];
      assert Snapshot(walk.v) == was;
      return 1;
    }
    pItem.zDatabase := None;
    pItem.pSchema := fix.pSchema;
    assert Snapshot(walk.v) == Bind(fix, walk.v, was, pItem);
    return 0;
  }

  method FixSrcList(fix: Fixer, pList: seq<Src>, ghost walk: Walk, ghost rest: seq<SrcItem>) returns (rc: int)
    requires Reached(fix, walk, SrcItems(pList) + rest)
    modifies walk.v, fix.pParse
    ensures Outcome(fix, walk, rest, rc)
    decreases pList, 1
  {
    var i := 0;
    assert pList[0..] == pList;
    while i < |pList|
      invariant 0 <= i <= |pList| && Reached(fix, walk, SrcItems(pList[i..]) + rest)
    {
      ghost var more := SrcItems(pList[i + 1..]) + rest;
      assert SrcItems(pList[i..]) + rest == ItemsOf(pList[i]) + more by {
        assert pList[i..][0] == pList[i] && pList[i..][1..] == pList[i + 1..];
      }
      rc := FixSrc(fix, pList[i], walk, more);
      if rc != 0 { return 1; }
      i := i + 1;
    }
    assert SrcItems(pList[i..]) + rest == rest;
    return 0;
  }

  /** The body of that loop: a reference, then its subquery, then its ON expression. */
  method FixSrc(fix: Fixer, r: Src, ghost walk: Walk, ghost rest: seq<SrcItem>) returns (rc: int)
    requires Reached(fix, walk, ItemsOf(r) + rest)
    modifies walk.v, fix.pParse
    ensures Outcome(fix, walk, rest, rc)
    decreases r
  {
    ghost var c := ExprItems(r.pOn) + rest;
    ghost var b := SelectItems(r.pSelect) + c;
    assert ItemsOf(r) + rest == [r.item] + b;
    rc := FixItem(fix, r.item, walk, b);
    if rc != 0 { return 1; }
    rc := FixSelect(fix, r.pSelect, walk, c);
    if rc != 0 { return 1; }
    rc := FixExpr(fix, r.pOn, walk, rest);
  }

  method FixSelect(fix: Fixer, pSelect: Select, ghost walk: Walk, ghost rest: seq<SrcItem>) returns (rc: int)
    requires Reached(fix, walk, SelectItems(pSelect) + rest)
    modifies walk.v, fix.pParse
    ensures Outcome(fix, walk, rest, rc)
    decreases pSelect, 1
  {
    var p := pSelect;
    while p.Select?
      invariant (p == pSelect || p < pSelect) && Reached(fix, walk, SelectItems(p) + rest)
      decreases p
    {
      ghost var more := SelectItems(p.pPrior) + rest;
      assert SelectItems(p) + rest == CoreItems(p) + more;
      rc := FixCore(fix, p, walk, more);
      if rc != 0 { return 1; }
      p := p.pPrior;
    }
    assert SelectItems(p) + rest == rest;
    return 0;
  }

  ghost function CoreItems(p: Select): seq<SrcItem>
    requires p.Select?
    ensures SelectItems(p) == CoreItems(p) + SelectItems(p.pPrior)
  {
    ListItems(p.pEList) + (SrcItems(p.pSrc) + (ExprItems(p.pWhere) + ExprItems(p.pHaving)))
  }

  /** The body of that loop: the parts of one SELECT of a compound. */
  method FixCore(fix: Fixer, p: Select, ghost walk: Walk, ghost rest: seq<SrcItem>) returns (rc: int)
    requires p.Select? && Reached(fix, walk, CoreItems(p) + rest)
    modifies walk.v, fix.pParse
    ensures Outcome(fix, walk, rest, rc)
    decreases p, 0
  {
    ghost var d := ExprItems(p.pHaving) + rest;
    ghost var c := ExprItems(p.pWhere) + d;
    ghost var b := SrcItems(p.pSrc) + c;
    assert CoreItems(p) + rest == ListItems(p.pEList) + b;
    rc := FixExprList(fix, p.pEList, walk, b);
    if rc != 0 { return 1; }
    rc := FixSrcList(fix, p.pSrc, walk, c);
    if rc != 0 { return 1; }
    rc := FixExpr(fix, p.pWhere, walk, d);
    if rc != 0 { return 1; }
    rc := FixExpr(fix, p.pHaving, walk, rest);
  }

  /** The operand, a subquery or a list of arguments, and the right operand of an expression. */
  ghost function NodeItems(p: Expr): seq<SrcItem>
    requires p.Expr? && !p.tokenOnly
    ensures ExprItems(p) == NodeItems(p) + ExprItems(p.pLeft)
  {
    OperandItems(p.x) + ExprItems(p.pRight)
  }

  /** The body of the loop down the left operands. */
  method FixNode(fix: Fixer, p: Expr, ghost walk: Walk, ghost rest: seq<SrcItem>) returns (rc: int)
    requires p.Expr? && !p.tokenOnly && Reached(fix, walk, NodeItems(p) + rest)
    modifies walk.v, fix.pParse
    ensures Outcome(fix, walk, rest, rc)
    decreases p, 0
  {
    ghost var b := ExprItems(p.pRight) + rest;
    assert NodeItems(p) + rest == OperandItems(p.x) + b;
    match p.x {
      case Subquery(s) => rc := FixSelect(fix, s, walk, b);
      case List(l) => rc := FixExprList(fix, l, walk, b);
    }
    if rc != 0 { return 1; }
    rc := FixExpr(fix, p.pRight, walk, rest);
  }

  method FixExpr(fix: Fixer, pExpr: Expr, ghost walk: Walk, ghost rest: seq<SrcItem>) returns (rc: int)
    requires Reached(fix, walk, ExprItems(pExpr) + rest)
    modifies walk.v, fix.pParse
    ensures Outcome(fix, walk, rest, rc)
    decreases pExpr, 1
  {
    var p := pExpr;
    while p.Expr?
      invariant (p == pExpr || p < pExpr) && Reached(fix, walk, ExprItems(p) + rest)
      decreases p
    {
      if p.tokenOnly { break; }
      ghost var more := ExprItems(p.pLeft) + rest;
      assert ExprItems(p) + rest == NodeItems(p) + more;
      rc := FixNode(fix, p, walk, more);
      if rc != 0 { return 1; }
      p := p.pLeft;
    }
    assert ExprItems(p) + rest == rest;
    return 0;
  }

  method FixExprList(fix: Fixer, pList: seq<Expr>, ghost walk: Walk, ghost rest: seq<SrcItem>) returns (rc: int)
    requires Reached(fix, walk, ListItems(pList) + rest)
    modifies walk.v, fix.pParse
    ensures Outcome(fix, walk, rest, rc)
    decreases pList, 1
  {
    var i := 0;
    assert pList[0..] == pList;
    while i < |pList|
      invariant 0 <= i <= |pList| && Reached(fix, walk, ListItems(pList[i..]) + rest)
    {
      ghost var more := ListItems(pList[i + 1..]) + rest;
      assert ListItems(pList[i..]) + rest == ExprItems(pList[i]) + more by {
        assert pList[i..][0] == pList[i] && pList[i..][1..] == pList[i + 1..];
      }
      rc := FixExpr(fix, pList[i], walk, more);
      if rc != 0 { return 1; }
      i := i + 1;
    }
    assert ListItems(pList[i..]) + rest == rest;
    return 0;
  }

  ghost function StepCore(p: Step): seq<SrcItem>
    requires p.Step?
    ensures StepItems(p) == StepCore(p) + StepItems(p.pNext)
  {
    SelectItems(p.pSelect) + (ExprItems(p.pWhere) + ListItems(p.pExprList))
  }

  /** The body of the loop over the steps of a trigger. */
  method FixOneStep(fix: Fixer, p: Step, ghost walk: Walk, ghost rest: seq<SrcItem>) returns (rc: int)
    requires p.Step? && Reached(fix, walk, StepCore(p) + rest)
    modifies walk.v, fix.pParse
    ensures Outcome(fix, walk, rest, rc)
  {
    ghost var c := ListItems(p.pExprList) + rest;
    ghost var b := ExprItems(p.pWhere) + c;
    assert StepCore(p) + rest == SelectItems(p.pSelect) + b;
    rc := FixSelect(fix, p.pSelect, walk, b);
    if rc != 0 { return 1; }
    rc := FixExpr(fix, p.pWhere, walk, c);
    if rc != 0 { return 1; }
    rc := FixExprList(fix, p.pExprList, walk, rest);
  }

  method FixTriggerStep(fix: Fixer, pStep: Step, ghost walk: Walk, ghost rest: seq<SrcItem>) returns (rc: int)
    requires Reached(fix, walk, StepItems(pStep) + rest)
    modifies walk.v, fix.pParse
    ensures Outcome(fix, walk, rest, rc)
  {
    var p := pStep;
    while p.Step?
      invariant Reached(fix, walk, StepItems(p) + rest)
      decreases p
    {
      ghost var more := StepItems(p.pNext) + rest;
      assert StepItems(p) + rest == StepCore(p) + more;
      rc := FixOneStep(fix, p, walk, more);
      if rc != 0 { return 1; }
      p := p.pNext;
    }
    assert StepItems(p) + rest == rest;
    return 0;
  }

  // ---------- Whole walks ----------

  /** A database of the connection. */
  datatype Db = Db(zName: string, pSchema: Schema)

  /** sqlite3FixInit: TEMP needs no fixing. */
  method FixInit(pParse: Parse, aDb: seq<Db>, iDb: int) returns (r: Option<Fixer>)
    requires iDb < |aDb|
    ensures r.None? <==> iDb < 0 || iDb == 1
    ensures r.Some? ==> r.value.pParse == pParse && Db(r.value.zDb, r.value.pSchema) == aDb[iDb]
  {
    if iDb < 0 || iDb == 1 { return None; }
    return Some(Fixer(pParse, aDb[iDb].zName, aDb[iDb].pSchema));
  }

  /** From the fields `was` all references are bound if none was foreign.  Otherwise those before the
      first foreign one are bound, the others are left alone, and there is one complaint. */
  ghost predicate Fixed(fix: Fixer, v: seq<SrcItem>, was: seq<Fields>, errors: seq<string>, rc: int)
    requires |was| == |v|
    reads v, fix.pParse
  {
    if rc == 0 then
      && fix.pParse.errors == errors
      && forall i | 0 <= i < |v| :: !fix.Foreign(was[i]) && FieldsOf(v[i]) == fix.Bound()
    else
      rc == 1 && exists k | 0 <= k < |v| :: FixedUpTo(fix, v, was, errors, k)
  }

  ghost predicate FixedUpTo(fix: Fixer, v: seq<SrcItem>, was: seq<Fields>, errors: seq<string>, k: nat)
    requires k < |v| == |was|
    reads v, fix.pParse
  {
    && fix.Foreign(was[k]) && fix.pParse.errors == errors + [was[k].zDatabase.value]
    && (forall i | 0 <= i < k :: !fix.Foreign(was[i]))
    && (forall i | 0 <= i < |v| :: FieldsOf(v[i]) == if v[i] in v[..k] then fix.Bound() else was[i])
  }

  /** The fields when the first n references have been bound. */
  ghost function StateAt(fix: Fixer, v: seq<SrcItem>, was: seq<Fields>, n: nat): (r: seq<Fields>)
    requires n <= |v| == |was|
    ensures |r| == |v|
  {
    if n == 0 then was else Bind(fix, v, StateAt(fix, v, was, n - 1), v[n - 1])
  }

  lemma {:induction false} StateIs(fix: Fixer, v: seq<SrcItem>, was: seq<Fields>, n: nat, i: nat)
    requires n <= |v| == |was| && i < |v|
    ensures StateAt(fix, v, was, n)[i] == if v[i] in v[..n] then fix.Bound() else was[i]
  {
    if n > 0 {
      StateIs(fix, v, was, n - 1, i);
      assert v[..n] == v[..n - 1] + [v[n - 1]];
    }
  }

  /** The first foreign reference, from reference n on. */
  ghost function FirstForeign(fix: Fixer, was: seq<Fields>, n: nat): (k: nat)
    requires n <= |was|
    ensures n <= k <= |was| && forall i | n <= i < k :: !fix.Foreign(was[i])
    ensures k < |was| ==> fix.Foreign(was[k])
    decreases |was| - n
  {
    if n == |was| || fix.Foreign(was[n]) then n else FirstForeign(fix, was, n + 1)
  }

  ghost function Plan(fix: Fixer, v: seq<SrcItem>, was: seq<Fields>, errors: seq<string>): Walk
    requires |was| == |v|
  {
    Walk(v, seq(|v| + 1, n requires 0 <= n <= |v| => StateAt(fix, v, was, n)), FirstForeign(fix, was, 0), errors)
  }

  /** A reference that is bound before it is visited again is not foreign. */
  lemma PlanIsValid(fix: Fixer, v: seq<SrcItem>, was: seq<Fields>, errors: seq<string>)
    requires Consistent(v, was)
    ensures Plan(fix, v, was, errors).Valid(fix)
  {
    var walk := Plan(fix, v, was, errors);
    forall i: nat | i < |v| ensures walk.Visit(fix, i) {
      StateIs(fix, v, was, i, i);
      if i == walk.stop && v[i] in v[..i] {
        var j :| 0 <= j < i && v[j] == v[i];
      }
    }
  }

  /** How the plan reads where the walk stops. */
  lemma PlanReads(fix: Fixer, v: seq<SrcItem>, was: seq<Fields>, errors: seq<string>)
    requires |was| == |v|
    ensures var walk := Plan(fix, v, was, errors);
            && walk.stop <= |v| && |walk.states| == |v| + 1 && |walk.states[walk.stop]| == |v|
            && (forall i | 0 <= i < walk.stop :: !fix.Foreign(was[i]))
            && (walk.stop < |v| ==> fix.Foreign(was[walk.stop]))
            && (forall i | 0 <= i < |v| ::
                  walk.states[walk.stop][i] == if v[i] in v[..walk.stop] then fix.Bound() else was[i])
  {
    var n := FirstForeign(fix, was, 0);
    forall i | 0 <= i < |v| ensures StateAt(fix, v, was, n)[i] == if v[i] in v[..n] then fix.Bound() else was[i] {
      StateIs(fix, v, was, n, i);
    }
  }

  /** A foreign reference is not bound before the walk stops at it. */
  lemma StopKeeps(fix: Fixer, v: seq<SrcItem>, was: seq<Fields>, n: nat)
    requires n < |v| == |was| && forall i | 0 <= i < n :: !fix.Foreign(was[i])
    requires fix.Foreign(was[n]) && forall i | 0 <= i < n && v[i] == v[n] :: was[i] == was[n]
    ensures v[n] !in v[..n]
  {
  }

  lemma BeginWalk(fix: Fixer, v: seq<SrcItem>) returns (walk: Walk)
    ensures walk == Plan(fix, v, Snapshot(v), fix.pParse.errors) && Consistent(v, Snapshot(v))
    ensures Reached(fix, walk, v + [])
  {
    walk := Plan(fix, v, Snapshot(v), fix.pParse.errors);
    PlanIsValid(fix, v, Snapshot(v), fix.pParse.errors);
    assert v[0..] == v == v + [];
  }

  lemma SnapshotReads(v: seq<SrcItem>, now: seq<Fields>)
    requires Snapshot(v) == now
    ensures |now| == |v| && forall i | 0 <= i < |v| :: now[i] == FieldsOf(v[i])
  {
  }

  /** Equal references had equal fields. */
  predicate Consistent(v: seq<SrcItem>, was: seq<Fields>) {
    |was| == |v| && forall i, j | 0 <= i < |v| && 0 <= j < |v| && v[i] == v[j] :: was[i] == was[j]
  }

  /** A walk that got through has bound every reference. */
  lemma EndThrough(fix: Fixer, v: seq<SrcItem>, walk: Walk, was: seq<Fields>, errors: seq<string>)
    requires |was| == |v| && walk == Plan(fix, v, was, errors) && Reached(fix, walk, [])
    ensures Fixed(fix, v, was, errors, 0)
  {
    var now := Snapshot(v);
    assert walk.stop == |v| && now == walk.states[|v|];
    PlanReads(fix, v, was, errors);
    SnapshotReads(v, now);
    assert v[..|v|] == v;
    forall i | 0 <= i < |v| ensures FieldsOf(v[i]) == fix.Bound() {
      assert v[i] in v[..|v|] && now[i] == fix.Bound();
    }
  }

  /** A walk that stopped has bound the references before the first foreign one. */
  lemma EndStopped(fix: Fixer, v: seq<SrcItem>, walk: Walk, was: seq<Fields>, errors: seq<string>)
    requires Consistent(v, was) && walk == Plan(fix, v, was, errors) && Stopped(fix, walk)
    ensures FixedUpTo(fix, v, was, errors, walk.stop)
  {
    PlanReads(fix, v, was, errors);
    StopKeeps(fix, v, was, walk.stop);
    SnapshotReads(v, walk.states[walk.stop]);
  }

  /** What the end of a walk means for the references. */
  lemma EndWalk(fix: Fixer, v: seq<SrcItem>, walk: Walk, was: seq<Fields>, errors: seq<string>, rc: int)
    requires Consistent(v, was) && walk == Plan(fix, v, was, errors) && Outcome(fix, walk, [], rc)
    ensures Fixed(fix, v, was, errors, rc) && rc == if AnyForeign(fix, was) then 1 else 0
  {
    if rc == 0 {
      EndThrough(fix, v, walk, was, errors);
    } else {
      EndStopped(fix, v, walk, was, errors);
      assert fix.Foreign(was[walk.stop]);
    }
  }

  /** The return code of a walk, read off the fields of the whole tree. */
  lemma CodeReads(fix: Fixer, v: seq<SrcItem>, whole: seq<SrcItem>)
    requires multiset(v) <= multiset(whole)
    ensures WalkCode(fix, v, whole, Snapshot(whole)) == if AnyForeign(fix, Snapshot(v)) then 1 else 0
  {
    if AnyForeign(fix, Snapshot(v)) {
      var i :| 0 <= i < |v| && fix.Foreign(Snapshot(v)[i]);
      assert v[i] in multiset(whole);
      var j :| 0 <= j < |whole| && whole[j] == v[i];
    } else {
      forall j | 0 <= j < |whole| && whole[j] in v ensures !fix.Foreign(Snapshot(whole)[j]) {
        var i :| 0 <= i < |v| && v[i] == whole[j];
        assert !fix.Foreign(Snapshot(v)[i]);
      }
    }
  }

  /** What the fixers are for: they return 0 exactly when no reference of the tree was foreign, and then
      all of them are bound. */
  ghost predicate PromiseKept(fix: Fixer, whole: seq<SrcItem>, was: seq<Fields>, rc: int)
    reads whole
  {
    && (rc == 0 <==> !AnyForeign(fix, was))
    && (rc == 0 ==> forall it | it in whole :: FieldsOf(it) == fix.Bound())
  }

  lemma PromiseHolds(fix: Fixer, v: seq<SrcItem>, was: seq<Fields>, errors: seq<string>, rc: int)
    requires |was| == |v| && Fixed(fix, v, was, errors, rc) && rc == if AnyForeign(fix, was) then 1 else 0
    ensures PromiseKept(fix, v, was, rc)
  {
  }

  method FixView(fix: Fixer, pSelect: Select) returns (rc: int)
    modifies SelectItems(pSelect), fix.pParse
    ensures Fixed(fix, SelectItems(pSelect), old(Snapshot(SelectItems(pSelect))), old(fix.pParse.errors), rc)
    ensures rc == ViewCode(fix, pSelect, old(Snapshot(AllOfSelect(pSelect))))
    ensures SkipsNothing(pSelect) ==> PromiseKept(fix, AllOfSelect(pSelect), old(Snapshot(AllOfSelect(pSelect))), rc)
  {
    ghost var v, whole := SelectItems(pSelect), AllOfSelect(pSelect);
    ghost var was, wasAll, errors := Snapshot(v), Snapshot(whole), fix.pParse.errors;
    SelectCovers(pSelect);
    CodeReads(fix, v, whole);
    ghost var walk := BeginWalk(fix, v);
    rc := FixSelect(fix, pSelect, walk, []);
    EndWalk(fix, v, walk, was, errors, rc);
    PromiseHolds(fix, v, was, errors, rc);
    assert SkipsNothing(pSelect) ==> v == whole && was == wasAll;
  }

  method FixTrigger(fix: Fixer, pStep: Step) returns (rc: int)
    modifies StepItems(pStep), fix.pParse
    ensures Fixed(fix, StepItems(pStep), old(Snapshot(StepItems(pStep))), old(fix.pParse.errors), rc)
    ensures rc == TriggerCode(fix, pStep, old(Snapshot(AllOfStep(pStep))))
    ensures StepSkipsNothing(pStep) ==> PromiseKept(fix, AllOfStep(pStep), old(Snapshot(AllOfStep(pStep))), rc)
  {
    ghost var v, whole := StepItems(pStep), AllOfStep(pStep);
    ghost var was, wasAll, errors := Snapshot(v), Snapshot(whole), fix.pParse.errors;
    StepCovers(pStep);
    CodeReads(fix, v, whole);
    ghost var walk := BeginWalk(fix, v);
    rc := FixTriggerStep(fix, pStep, walk, []);
    EndWalk(fix, v, walk, was, errors, rc);
    PromiseHolds(fix, v, was, errors, rc);
    assert StepSkipsNothing(pStep) ==> v == whole && was == wasAll;
  }

  /** A view whose only reference is to a foreign database gets through: nothing is reported or bound. */
  method FixOrderedBy(fix: Fixer, it: SrcItem) returns (rc: int)
    requires fix.Foreign(FieldsOf(it))
    modifies fix.pParse
    ensures rc == 0 && AllOfSelect(OrderedBy(it)) == [it]
    ensures FieldsOf(it) == old(FieldsOf(it)) && fix.pParse.errors == old(fix.pParse.errors)
  {
    OrderedByItems(it);
    OrderByAccepted(fix, it, FieldsOf(it));
    assert Snapshot([it]) == [FieldsOf(it)];
    rc := FixView(fix, OrderedBy(it));
  }

  /** The same in a trigger. */
  method FixInsertOrderedBy(fix: Fixer, it: SrcItem) returns (rc: int)
    requires fix.Foreign(FieldsOf(it))
    modifies fix.pParse
    ensures rc == 0 && AllOfStep(InsertOrderedBy(it)) == [it]
    ensures FieldsOf(it) == old(FieldsOf(it)) && fix.pParse.errors == old(fix.pParse.errors)
  {
    InsertOrderedByItems(it);
    StepOrderByAccepted(fix, it, FieldsOf(it));
    assert Snapshot([it]) == [FieldsOf(it)];
    rc := FixTrigger(fix, InsertOrderedBy(it));
  }
}
