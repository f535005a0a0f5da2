/** What the fixers do not look at (sqlcipher/src/attach.c), the GROUP BY, ORDER BY, LIMIT and OFFSET of a
    SELECT, and when their return code is right about a whole tree. */
module FixerCoverage {
  import opened FixerTree
  import opened Names

  // ---------- All references of a tree ----------

  function AllOfSelect(s: Select): seq<SrcItem>
    decreases s
  {
    match s
    case NoSelect => []
    case Select(eList, src, where, having, prior, groupBy, orderBy, limit, offset) =>
      AllOfList(eList) + (AllOfSrcs(src) + (AllOfExpr(where) + AllOfExpr(having))) + AllOfSelect(prior)
      + (AllOfList(groupBy) + AllOfList(orderBy) + (AllOfExpr(limit) + AllOfExpr(offset)))
  }

  function AllOfSrcs(l: seq<Src>): seq<SrcItem>
    decreases l
  {
    if l == [] then [] else AllOfSrc(l[0]) + AllOfSrcs(l[1..])
  }

  function AllOfSrc(r: Src): seq<SrcItem>
    decreases r
  {
    [r.item] + (AllOfSelect(r.pSelect) + AllOfExpr(r.pOn))
  }

  function AllOfOperand(x: Operand): seq<SrcItem>
    decreases x
  {
    match x
    case List(l) => AllOfList(l)
    case Subquery(s) => AllOfSelect(s)
  }

  function AllOfExpr(e: Expr): seq<SrcItem>
    decreases e
  {
    match e
    case NoExpr => []
    case Expr(tokenOnly, x, right, left) =>
      if tokenOnly then [] else AllOfOperand(x) + AllOfExpr(right) + AllOfExpr(left)
  }

  function AllOfList(l: seq<Expr>): seq<SrcItem>
    decreases l
  {
    if l == [] then [] else AllOfExpr(l[0]) + AllOfList(l[1..])
  }

  function AllOfStep(t: Step): seq<SrcItem> {
    match t
    case NoStep => []
    case Step(s, where, l, next) => AllOfSelect(s) + (AllOfExpr(where) + AllOfList(l)) + AllOfStep(next)
  }

  // ---------- Trees in which nothing is skipped ----------

  /** At every SELECT the four clauses that are not visited hold no reference. */
  predicate SkipsNothing(s: Select)
    decreases s
  {
    match s
    case NoSelect => true
    case Select(eList, src, where, having, prior, groupBy, orderBy, limit, offset) =>
      && AllOfList(groupBy) == AllOfList(orderBy) == AllOfExpr(limit) == AllOfExpr(offset) == []
      && ListSkipsNothing(eList) && SrcsSkipNothing(src)
      && ExprSkipsNothing(where) && ExprSkipsNothing(having) && SkipsNothing(prior)
  }

  predicate SrcsSkipNothing(l: seq<Src>)
    decreases l
  {
    l == [] || (SrcSkipsNothing(l[0]) && SrcsSkipNothing(l[1..]))
  }

  predicate SrcSkipsNothing(r: Src)
    decreases r
  {
    SkipsNothing(r.pSelect) && ExprSkipsNothing(r.pOn)
  }

  predicate OperandSkipsNothing(x: Operand)
    decreases x
  {
    match x
    case List(l) => ListSkipsNothing(l)
    case Subquery(s) => SkipsNothing(s)
  }

  predicate ExprSkipsNothing(e: Expr)
    decreases e
  {
    match e
    case NoExpr => true
    case Expr(tokenOnly, x, right, left) =>
      tokenOnly || (OperandSkipsNothing(x) && ExprSkipsNothing(right) && ExprSkipsNothing(left))
  }

  predicate ListSkipsNothing(l: seq<Expr>)
    decreases l
  {
    l == [] || (ExprSkipsNothing(l[0]) && ListSkipsNothing(l[1..]))
  }

  predicate StepSkipsNothing(t: Step) {
    match t
    case NoStep => true
    case Step(s, where, l, next) =>
      SkipsNothing(s) && ExprSkipsNothing(where) && ListSkipsNothing(l) && StepSkipsNothing(next)
  }

  /** Visited references and all references of a part of a tree, and whether nothing is skipped there. */
  datatype Cover = Cover(visited: seq<SrcItem>, whole: seq<SrcItem>, skipsNothing: bool) {
    /** The visited references are those of the part, or fewer of them. */
    ghost predicate Valid() {
      && multiset(visited) <= multiset(whole)
      && (if skipsNothing then visited == whole else |visited| < |whole|)
    }

    function Join(c: Cover): Cover {
      Cover(visited + c.visited, whole + c.whole, skipsNothing && c.skipsNothing)
    }

    lemma JoinValid(c: Cover)
      requires Valid() && c.Valid()
      ensures Join(c).Valid()
    {
    }
  }

  function SelectCover(s: Select): Cover {
    Cover(SelectItems(s), AllOfSelect(s), SkipsNothing(s))
  }

  function SrcsCover(l: seq<Src>): Cover {
    Cover(SrcItems(l), AllOfSrcs(l), SrcsSkipNothing(l))
  }

  function SrcCover(r: Src): Cover {
    Cover(ItemsOf(r), AllOfSrc(r), SrcSkipsNothing(r))
  }

  function OperandCover(x: Operand): Cover {
    Cover(OperandItems(x), AllOfOperand(x), OperandSkipsNothing(x))
  }

  function ExprCover(e: Expr): Cover {
    Cover(ExprItems(e), AllOfExpr(e), ExprSkipsNothing(e))
  }

  function ListCover(l: seq<Expr>): Cover {
    Cover(ListItems(l), AllOfList(l), ListSkipsNothing(l))
  }

  function StepCover(t: Step): Cover {
    Cover(StepItems(t), AllOfStep(t), StepSkipsNothing(t))
  }

  /** The clauses that are not visited. */
  function SkippedCover(s: Select): Cover
    requires s.Select?
  {
    var skipped := AllOfList(s.pGroupBy) + AllOfList(s.pOrderBy) + (AllOfExpr(s.pLimit) + AllOfExpr(s.pOffset));
    Cover([], skipped, skipped == [])
  }

  function CoreCover(s: Select): Cover
    requires s.Select?
  {
    ListCover(s.pEList).Join(SrcsCover(s.pSrc).Join(ExprCover(s.pWhere).Join(ExprCover(s.pHaving))))
  }

  lemma SelectCoverIs(s: Select)
    requires s.Select?
    ensures SelectCover(s) == CoreCover(s).Join(SelectCover(s.pPrior)).Join(SkippedCover(s))
  {
  }

  lemma {:induction false} SelectCovers(s: Select)
    ensures SelectCover(s).Valid()
    decreases s
  {
    if s.Select? {
      ListCovers(s.pEList);
      SrcsCovers(s.pSrc);
      ExprCovers(s.pWhere);
      ExprCovers(s.pHaving);
      SelectCovers(s.pPrior);
      var wh := ExprCover(s.pWhere).Join(ExprCover(s.pHaving));
      ExprCover(s.pWhere).JoinValid(ExprCover(s.pHaving));
      SrcsCover(s.pSrc).JoinValid(wh);
      ListCover(s.pEList).JoinValid(SrcsCover(s.pSrc).Join(wh));
      CoreCover(s).JoinValid(SelectCover(s.pPrior));
      CoreCover(s).Join(SelectCover(s.pPrior)).JoinValid(SkippedCover(s));
      SelectCoverIs(s);
    }
  }

  lemma {:induction false} SrcsCovers(l: seq<Src>)
    ensures SrcsCover(l).Valid()
    decreases l
  {
    if l != [] {
      SrcCovers(l[0]);
      SrcsCovers(l[1..]);
      SrcCover(l[0]).JoinValid(SrcsCover(l[1..]));
    }
  }

  lemma {:induction false} SrcCovers(r: Src)
    ensures SrcCover(r).Valid()
    decreases r
  {
    SelectCovers(r.pSelect);
    ExprCovers(r.pOn);
    var below := SelectCover(r.pSelect).Join(ExprCover(r.pOn));
    SelectCover(r.pSelect).JoinValid(ExprCover(r.pOn));
    Cover([r.item], [r.item], true).JoinValid(below);
  }

  lemma {:induction false} OperandCovers(x: Operand)
    ensures OperandCover(x).Valid()
    decreases x
  {
    if x.List? { ListCovers(x.pList); } else { SelectCovers(x.pSelect); }
  }

  lemma {:induction false} ExprCovers(e: Expr)
    ensures ExprCover(e).Valid()
    decreases e
  {
    if e.Expr? && !e.tokenOnly {
      OperandCovers(e.x);
      ExprCovers(e.pRight);
      ExprCovers(e.pLeft);
      OperandCover(e.x).JoinValid(ExprCover(e.pRight));
      OperandCover(e.x).Join(ExprCover(e.pRight)).JoinValid(ExprCover(e.pLeft));
    }
  }

  lemma {:induction false} ListCovers(l: seq<Expr>)
    ensures ListCover(l).Valid()
    decreases l
  {
    if l != [] {
      ExprCovers(l[0]);
      ListCovers(l[1..]);
      ExprCover(l[0]).JoinValid(ListCover(l[1..]));
    }
  }

  lemma {:induction false} StepCovers(t: Step)
    ensures StepCover(t).Valid()
  {
    if t.Step? {
      SelectCovers(t.pSelect);
      ExprCovers(t.pWhere);
      ListCovers(t.pExprList);
      StepCovers(t.pNext);
      var rest := ExprCover(t.pWhere).Join(ListCover(t.pExprList));
      ExprCover(t.pWhere).JoinValid(ListCover(t.pExprList));
      SelectCover(t.pSelect).JoinValid(rest);
      SelectCover(t.pSelect).Join(rest).JoinValid(StepCover(t.pNext));
    }
  }

  // ---------- The return code and the whole tree ----------

  /** One of these references names another database. */
  predicate AnyForeign(fix: Fixer, fields: seq<Fields>) {
    exists i | 0 <= i < |fields| :: fix.Foreign(fields[i])
  }

  /** What a walk over the visited references of a tree returns when all references of the tree have the
      given fields: 1 if one of the visited ones is foreign. */
  ghost function WalkCode(fix: Fixer, visited: seq<SrcItem>, whole: seq<SrcItem>, fields: seq<Fields>): int
    requires |fields| == |whole|
  {
    if exists i | 0 <= i < |whole| :: whole[i] in visited && fix.Foreign(fields[i]) then 1 else 0
  }

  /** sqlite3FixSelect on a view, and */
  ghost function ViewCode(fix: Fixer, s: Select, fields: seq<Fields>): int
    requires |fields| == |AllOfSelect(s)|
  {
    WalkCode(fix, SelectItems(s), AllOfSelect(s), fields)
  }

  /** sqlite3FixTriggerStep on the steps of a trigger. */
  ghost function TriggerCode(fix: Fixer, t: Step, fields: seq<Fields>): int
    requires |fields| == |AllOfStep(t)|
  {
    WalkCode(fix, StepItems(t), AllOfStep(t), fields)
  }

  /** Every FROM item is an object of its own, as in a tree that the parser builds. */
  predicate Distinct(w: seq<SrcItem>) {
    forall i, j | 0 <= i < j < |w| :: w[i] != w[j]
  }

  lemma {:induction false} DistinctOnce(w: seq<SrcItem>, it: SrcItem)
    requires Distinct(w)
    ensures multiset(w)[it] <= 1
  {
    if w != [] {
      var n := |w| - 1;
      assert w == w[..n] + [w[n]];
      DistinctOnce(w[..n], it);
      assert forall i | 0 <= i < n :: w[..n][i] != w[n];
    }
  }

  /** A reference of a tree that is larger than the visited part is not visited. */
  lemma SkippedAt(visited: seq<SrcItem>, whole: seq<SrcItem>) returns (k: nat)
    requires Distinct(whole) && Cover(visited, whole, false).Valid()
    ensures k < |whole| && whole[k] !in visited
  {
    var left := multiset(whole) - multiset(visited);
    assert |left| == |whole| - |visited|;
    var it :| it in left;
    DistinctOnce(whole, it);
    assert it !in multiset(visited);
    k :| 0 <= k < |whole| && whole[k] == it;
  }

  /** A database name that is not the fixer's. */
  function OtherName(zDb: string): string {
    zDb + "x"
  }

  /** The naming that only the reference at k is qualified. */
  function OnlyForeign(fix: Fixer, n: nat, k: nat): (r: seq<Fields>)
    ensures |r| == n && forall i | 0 <= i < n :: fix.Foreign(r[i]) <==> i == k
  {
    seq(n, i => Fields(if i == k then Some(OtherName(fix.zDb)) else None, 0))
  }

  lemma CodeIff(fix: Fixer, visited: seq<SrcItem>, whole: seq<SrcItem>, skipsNothing: bool)
    requires Distinct(whole) && Cover(visited, whole, skipsNothing).Valid()
    ensures (forall fields: seq<Fields> | |fields| == |whole| ::
               WalkCode(fix, visited, whole, fields) == if AnyForeign(fix, fields) then 1 else 0)
            <==> skipsNothing
  {
    if !skipsNothing {
      var k := SkippedAt(visited, whole);
      var fields := OnlyForeign(fix, |whole|, k);
      assert fix.Foreign(fields[k]);
      forall i | 0 <= i < |whole| && whole[i] in visited ensures !fix.Foreign(fields[i]) {}
      assert WalkCode(fix, visited, whole, fields) == 0;
    }
  }

  /** The return code for a view is right, whatever databases its references name, exactly when at every
      SELECT the clauses that are not visited hold no reference, */
  lemma ViewCodeIff(fix: Fixer, s: Select)
    requires Distinct(AllOfSelect(s))
    ensures (forall fields: seq<Fields> | |fields| == |AllOfSelect(s)| ::
               ViewCode(fix, s, fields) == if AnyForeign(fix, fields) then 1 else 0)
            <==> SkipsNothing(s)
  {
    SelectCovers(s);
    CodeIff(fix, SelectItems(s), AllOfSelect(s), SkipsNothing(s));
    assert forall fields: seq<Fields> | |fields| == |AllOfSelect(s)| ::
        ViewCode(fix, s, fields) == WalkCode(fix, SelectItems(s), AllOfSelect(s), fields);
  }

  /** and so is the return code for a trigger. */
  lemma TriggerCodeIff(fix: Fixer, t: Step)
    requires Distinct(AllOfStep(t))
    ensures (forall fields: seq<Fields> | |fields| == |AllOfStep(t)| ::
               TriggerCode(fix, t, fields) == if AnyForeign(fix, fields) then 1 else 0)
            <==> StepSkipsNothing(t)
  {
    StepCovers(t);
    CodeIff(fix, StepItems(t), AllOfStep(t), StepSkipsNothing(t));
    assert forall fields: seq<Fields> | |fields| == |AllOfStep(t)| ::
        TriggerCode(fix, t, fields) == WalkCode(fix, StepItems(t), AllOfStep(t), fields);
  }

  /** When nothing is skipped the walk goes through the very references of the tree, in order. */
  lemma SkipsNothingIff(s: Select)
    ensures SkipsNothing(s) <==> |SelectItems(s)| == |AllOfSelect(s)|
    ensures SkipsNothing(s) <==> SelectItems(s) == AllOfSelect(s)
  {
    SelectCovers(s);
  }

  lemma StepSkipsNothingIff(t: Step)
    ensures StepSkipsNothing(t) <==> |StepItems(t)| == |AllOfStep(t)|
    ensures StepSkipsNothing(t) <==> StepItems(t) == AllOfStep(t)
  {
    StepCovers(t);
  }

  // ---------- A view that slips through ----------

  /** The literal 1. */
  const One := Expr(false, List([]), NoExpr, NoExpr)

  /** SELECT 1 FROM it */
  function OneFrom(it: SrcItem): Select {
    Select([One], [Src(it, NoSelect, NoExpr)], NoExpr, NoExpr, NoSelect, [], [], NoExpr, NoExpr)
  }

  /** SELECT 1 ORDER BY (SELECT 1 FROM it) */
  function OrderedBy(it: SrcItem): Select {
    Select([One], [], NoExpr, NoExpr, NoSelect, [], [Expr(false, Subquery(OneFrom(it)), NoExpr, NoExpr)],
           NoExpr, NoExpr)
  }

  lemma OneIsBare()
    ensures AllOfList([One]) == [] && ListItems([One]) == []
  {
    assert OperandItems(One.x) == [] && AllOfOperand(One.x) == [];
    assert ExprItems(One) == [] && AllOfExpr(One) == [];
    assert [One][1..] == [];
  }

  lemma OneFromItems(it: SrcItem)
    ensures AllOfSelect(OneFrom(it)) == [it]
  {
    var src := OneFrom(it).pSrc;
    OneIsBare();
    assert AllOfSrc(src[0]) == [it];
    assert src[1..] == [] && AllOfSrcs(src) == [it];
  }

  lemma OrderedByItems(it: SrcItem)
    ensures SelectItems(OrderedBy(it)) == [] && AllOfSelect(OrderedBy(it)) == [it]
  {
    var s := OrderedBy(it);
    var e := s.pOrderBy[0];
    OneIsBare();
    OneFromItems(it);
    assert AllOfOperand(e.x) == [it] && AllOfExpr(e) == [it];
    assert s.pOrderBy[1..] == [] && AllOfList(s.pOrderBy) == [it];
  }

  /** Its one reference is foreign, and 0 is returned. */
  lemma OrderByAccepted(fix: Fixer, it: SrcItem, f: Fields)
    requires fix.Foreign(f)
    ensures |AllOfSelect(OrderedBy(it))| == 1 && AnyForeign(fix, [f])
    ensures ViewCode(fix, OrderedBy(it), [f]) == 0
  {
    OrderedByItems(it);
    assert fix.Foreign([f][0]);
  }

  /** INSERT INTO ... SELECT 1 ORDER BY (SELECT 1 FROM it), as a trigger step. */
  function InsertOrderedBy(it: SrcItem): Step {
    Step(OrderedBy(it), NoExpr, [], NoStep)
  }

  lemma InsertOrderedByItems(it: SrcItem)
    ensures StepItems(InsertOrderedBy(it)) == [] && AllOfStep(InsertOrderedBy(it)) == [it]
  {
    var t := InsertOrderedBy(it);
    OrderedByItems(it);
    assert StepItems(t.pNext) == [] && AllOfStep(t.pNext) == [];
  }

  lemma StepOrderByAccepted(fix: Fixer, it: SrcItem, f: Fields)
    requires fix.Foreign(f)
    ensures |AllOfStep(InsertOrderedBy(it))| == 1 && AnyForeign(fix, [f])
    ensures TriggerCode(fix, InsertOrderedBy(it), [f]) == 0
  {
    InsertOrderedByItems(it);
    assert fix.Foreign([f][0]);
  }
}
