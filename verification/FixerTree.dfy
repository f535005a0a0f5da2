/** The parse trees that the database fixers of sqlcipher/src/attach.c walk over, the table references
    they visit, and what a run over these references does. */
module FixerTree {
  import opened Names

  type Schema = nat

  /** A table reference in a FROM clause; the fixers write to both fields. */
  class SrcItem {
    var zDatabase: Option<string>
    var pSchema: Schema

    constructor (zDatabase: Option<string>, pSchema: Schema)
      ensures this.zDatabase == zDatabase && this.pSchema == pSchema
    {
      this.zDatabase, this.pSchema := zDatabase, pSchema;
    }
  }

  class Parse {
    var errors: seq<string>           // the foreign databases complained about

    constructor ()
      ensures errors == []
    {
      errors := [];
    }
  }

  datatype Select =
    | NoSelect
    | Select(pEList: seq<Expr>, pSrc: seq<Src>, pWhere: Expr, pHaving: Expr, pPrior: Select,
             pGroupBy: seq<Expr>, pOrderBy: seq<Expr>, pLimit: Expr, pOffset: Expr)
  datatype Src = Src(item: SrcItem, pSelect: Select, pOn: Expr)
  datatype Expr = NoExpr | Expr(tokenOnly: bool, x: Operand, pRight: Expr, pLeft: Expr)
  datatype Operand = List(pList: seq<Expr>) | Subquery(pSelect: Select)
  datatype Step = NoStep | Step(pSelect: Select, pWhere: Expr, pExprList: seq<Expr>, pNext: Step)

  // ---------- The references that are visited, in order ----------

  function SelectItems(s: Select): seq<SrcItem>
    decreases s
  {
    match s
    case NoSelect => []
    case Select(eList, src, where, having, prior, _, _, _, _) =>
      ListItems(eList) + (SrcItems(src) + (ExprItems(where) + ExprItems(having))) + SelectItems(prior)
  }

  function SrcItems(l: seq<Src>): seq<SrcItem>
    decreases l
  {
    if l == [] then [] else ItemsOf(l[0]) + SrcItems(l[1..])
  }

  function ItemsOf(r: Src): seq<SrcItem>
    decreases r
  {
    [r.item] + (SelectItems(r.pSelect) + ExprItems(r.pOn))
  }

  function OperandItems(x: Operand): seq<SrcItem>
    decreases x
  {
    match x
    case List(l) => ListItems(l)
    case Subquery(s) => SelectItems(s)
  }

  function ExprItems(e: Expr): seq<SrcItem>
    decreases e
  {
    match e
    case NoExpr => []
    case Expr(tokenOnly, x, right, left) =>
      if tokenOnly then [] else OperandItems(x) + ExprItems(right) + ExprItems(left)
  }

  function ListItems(l: seq<Expr>): seq<SrcItem>
    decreases l
  {
    if l == [] then [] else ExprItems(l[0]) + ListItems(l[1..])
  }

  function StepItems(t: Step): seq<SrcItem> {
    match t
    case NoStep => []
    case Step(s, where, l, next) => SelectItems(s) + (ExprItems(where) + ListItems(l)) + StepItems(next)
  }

  // ---------- Fixing them ----------

  /** The fields of a reference. */
  datatype Fields = Fields(zDatabase: Option<string>, pSchema: Schema)

  function FieldsOf(it: SrcItem): Fields
    reads it
  {
    Fields(it.zDatabase, it.pSchema)
  }

  datatype Fixer = Fixer(pParse: Parse, zDb: string, pSchema: Schema) {
    /** The reference names another database. */
    predicate Foreign(f: Fields) {
      f.zDatabase.Some? && !SameName(f.zDatabase.value, zDb)
    }

    /** What a reference becomes. */
    function Bound(): Fields {
      Fields(None, pSchema)
    }
  }

  /** The fields of all references of a list. */
  function Snapshot(v: seq<SrcItem>): (r: seq<Fields>)
    reads v
    ensures |r| == |v|
  {
    seq(|v|, i requires 0 <= i < |v| reads v => FieldsOf(v[i]))
  }

  /** The fields of all references when reference `it` has been bound. */
  function Bind(fix: Fixer, v: seq<SrcItem>, fields: seq<Fields>, it: SrcItem): (r: seq<Fields>)
    requires |fields| == |v|
    ensures |r| == |v|
  {
    seq(|v|, i requires 0 <= i < |v| => if v[i] == it then fix.Bound() else fields[i])
  }

  /** The plan of a walk: the references in the order of the visit, the fields they have when the first i
      of them have been bound, the first foreign reference, if any, and the complaints made before. */
  datatype Walk = Walk(v: seq<SrcItem>, states: seq<seq<Fields>>, stop: nat, errors: seq<string>) {
    ghost predicate Visit(fix: Fixer, i: nat)
      requires |states| == |v| + 1 && i < |v|
    {
      && |states[i]| == |v|
      && (i < stop ==> !fix.Foreign(states[i][i]) && states[i + 1] == Bind(fix, v, states[i], v[i]))
      && (i == stop ==> fix.Foreign(states[i][i]))
    }

    ghost predicate Valid(fix: Fixer) {
      |states| == |v| + 1 && stop <= |v| && forall i :: 0 <= i < |v| ==> Visit(fix, i)
    }
  }

  /** The walk has not met a foreign reference, and `rest` is still to be visited. */
  ghost predicate Reached(fix: Fixer, walk: Walk, rest: seq<SrcItem>)
    reads walk.v, fix.pParse
  {
    var at := |walk.v| - |rest|;
    && walk.Valid(fix) && 0 <= at <= walk.stop && walk.v[at..] == rest
    && Snapshot(walk.v) == walk.states[at]
    && fix.pParse.errors == walk.errors
  }

  /** The walk has stopped at its first foreign reference, with a complaint about its database. */
  ghost predicate Stopped(fix: Fixer, walk: Walk)
    reads walk.v, fix.pParse
  {
    && walk.Valid(fix) && walk.stop < |walk.v|
    && Snapshot(walk.v) == walk.states[walk.stop]
    && |walk.states[walk.stop]| == |walk.v| && fix.Foreign(walk.states[walk.stop][walk.stop])
    && fix.pParse.errors == walk.errors + [walk.states[walk.stop][walk.stop].zDatabase.value]
  }

  /** What a fixer leaves behind: it has got through to the rest, or stopped. */
  ghost predicate Outcome(fix: Fixer, walk: Walk, rest: seq<SrcItem>, rc: int)
    reads walk.v, fix.pParse
  {
    if rc == 0 then Reached(fix, walk, rest) else rc == 1 && Stopped(fix, walk)
  }
}
