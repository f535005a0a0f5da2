/** SQL text as a list of tokens, and what the ALTER TABLE functions of sqlcipher/src/alter.c promise
    to do to it. */
module AlterTokens {
  import opened Names
  import opened Quoting

  datatype Kind = Space | References | Lp | Using | Dot | On | When | For | Begin | Other

  /** What sqlite3GetToken says at a position of the text: type and length of the token there. */
  datatype Lex = Lex(kind: Kind, len: nat)

  /** An answer for every position of the text.  Every token takes at least one character of the text,
      and the end of the text is no token type that the callers look for. */
  predicate Lexes(text: string, lex: seq<Lex>) {
    && |lex| == |text| + 1
    && (forall z | 0 <= z < |text| :: 1 <= lex[z].len <= |text| - z)
    && lex[|text|].kind == Other
  }

  /** A token of the text and where it stands. */
  datatype Token = Token(kind: Kind, start: nat, len: nat)

  function TextOf(text: string, t: Token): string
    requires t.start + t.len <= |text|
  {
    text[t.start..t.start + t.len]
  }

  /** The tokens from position z on. */
  function Tokens(text: string, lex: seq<Lex>, z: nat): seq<Token>
    requires Lexes(text, lex) && z <= |text|
    decreases |text| - z
  {
    if z == |text| then []
    else [Token(lex[z].kind, z, lex[z].len)] + Tokens(text, lex, z + lex[z].len)
  }

  /** Where token i starts; behind the last token that is the end of the text. */
  function StartOf(text: string, ts: seq<Token>, i: nat): nat
    requires i <= |ts|
  {
    if i < |ts| then ts[i].start else |text|
  }

  /** Token i is what the tokenizer finds at its place, and the next one starts where it ends. */
  predicate InPlace(text: string, lex: seq<Lex>, ts: seq<Token>, i: nat)
    requires Lexes(text, lex) && i < |ts|
  {
    var t := ts[i];
    && t.start < |text| && t.kind == lex[t.start].kind && t.len == lex[t.start].len
    && StartOf(text, ts, i + 1) == t.start + t.len
  }

  /** The tokens tile the text from position z on. */
  predicate Tiles(text: string, lex: seq<Lex>, ts: seq<Token>, z: nat) {
    && Lexes(text, lex)
    && StartOf(text, ts, 0) == z
    && forall i | 0 <= i < |ts| :: InPlace(text, lex, ts, i)
  }

  lemma {:induction false} TokensTile(text: string, lex: seq<Lex>, z: nat)
    requires Lexes(text, lex) && z <= |text|
    ensures Tiles(text, lex, Tokens(text, lex, z), z)
    decreases |text| - z
  {
    if z < |text| {
      var ts, more := Tokens(text, lex, z), Tokens(text, lex, z + lex[z].len);
      TokensTile(text, lex, z + lex[z].len);
      forall i | 0 <= i < |ts| ensures InPlace(text, lex, ts, i) {
        if i > 0 { assert InPlace(text, lex, more, i - 1); }
      }
    }
  }

  // ---------- Renaming the parent of foreign keys ----------

  /** Before token i the text still owes the parent table of a REFERENCES. */
  predicate Owed(ts: seq<Token>, i: nat)
    requires i <= |ts|
  {
    i > 0 &&
      if Owed(ts, i - 1) then ts[i - 1].kind.Space? else ts[i - 1].kind.References?
  }

  /** Token i is the parent table of a REFERENCES. */
  predicate IsParent(ts: seq<Token>, i: nat)
    requires i < |ts|
  {
    Owed(ts, i) && !ts[i].kind.Space?
  }

  /** What token i becomes: a parent that is the old name becomes the quoted new one. */
  function Renamed(text: string, ts: seq<Token>, oldName: string, newName: string, i: nat): string
    requires i < |ts| && ts[i].start + ts[i].len <= |text|
  {
    if IsParent(ts, i) && SameName(oldName, Dequoted(TextOf(text, ts[i]))) then Quoted(newName, '"')
    else TextOf(text, ts[i])
  }

  /** What the first i tokens become. */
  function AllRenamed(text: string, lex: seq<Lex>, ts: seq<Token>, oldName: string, newName: string, i: nat): string
    requires Tiles(text, lex, ts, 0) && i <= |ts|
  {
    if i == 0 then ""
    else
      assert InPlace(text, lex, ts, i - 1);
      AllRenamed(text, lex, ts, oldName, newName, i - 1) + Renamed(text, ts, oldName, newName, i - 1)
  }

  /** Only spaces stand between token j and token i. */
  predicate OnlySpaces(ts: seq<Token>, j: nat, i: nat)
    requires j < i <= |ts|
  {
    forall k | j < k < i :: ts[k].kind.Space?
  }

  /** A parent is the first token that is not a space behind a REFERENCES that is not a parent itself. */
  lemma {:induction false} ParentIff(ts: seq<Token>, i: nat)
    requires i < |ts|
    ensures IsParent(ts, i) <==>
            !ts[i].kind.Space? &&
            exists j | 0 <= j < i :: ts[j].kind.References? && !IsParent(ts, j) && OnlySpaces(ts, j, i)
  {
    OwedIff(ts, i);
  }

  lemma {:induction false} OwedIff(ts: seq<Token>, i: nat)
    requires i <= |ts|
    ensures Owed(ts, i) <==>
            exists j | 0 <= j < i :: ts[j].kind.References? && !IsParent(ts, j) && OnlySpaces(ts, j, i)
  {
    if i > 0 {
      OwedIff(ts, i - 1);
      if Owed(ts, i) {
        if Owed(ts, i - 1) {
          var j :| 0 <= j < i - 1 && ts[j].kind.References? && !IsParent(ts, j) && OnlySpaces(ts, j, i - 1);
          assert OnlySpaces(ts, j, i);
        } else {
          assert OnlySpaces(ts, i - 1, i);
        }
      }
      if j :| 0 <= j < i && ts[j].kind.References? && !IsParent(ts, j) && OnlySpaces(ts, j, i) {
        if j < i - 1 {
          assert OnlySpaces(ts, j, i - 1);
        }
      }
    }
  }

  /** Token i is no parent that is the old name. */
  predicate Keeps(text: string, lex: seq<Lex>, ts: seq<Token>, oldName: string, i: nat)
    requires Tiles(text, lex, ts, 0) && i < |ts|
  {
    InPlace(text, lex, ts, i) && !(IsParent(ts, i) && SameName(oldName, Dequoted(TextOf(text, ts[i]))))
  }

  /** Where no parent is the old name, the text stays as it is. */
  lemma {:induction false} NothingToRename(text: string, lex: seq<Lex>, ts: seq<Token>, oldName: string,
                                           newName: string, i: nat)
    requires Tiles(text, lex, ts, 0) && i <= |ts|
    requires forall k | 0 <= k < i :: Keeps(text, lex, ts, oldName, k)
    ensures StartOf(text, ts, i) <= |text|
    ensures AllRenamed(text, lex, ts, oldName, newName, i) == text[..StartOf(text, ts, i)]
  {
    if i > 0 {
      assert Keeps(text, lex, ts, oldName, i - 1);
      NothingToRename(text, lex, ts, oldName, newName, i - 1);
      KeptText(text, lex, ts, i - 1);
    }
  }

  lemma KeptText(text: string, lex: seq<Lex>, ts: seq<Token>, i: nat)
    requires Lexes(text, lex) && i < |ts| && InPlace(text, lex, ts, i)
    ensures ts[i].start + ts[i].len <= |text|
    ensures text[..StartOf(text, ts, i)] + TextOf(text, ts[i]) == text[..StartOf(text, ts, i + 1)]
  {
  }

  // ---------- Renaming a table or the table of a trigger ----------

  /** The tokens that are not spaces. */
  function Solid(ts: seq<Token>): (r: seq<Token>)
    ensures forall i | 0 <= i < |r| :: r[i] in ts && !r[i].kind.Space?
  {
    if ts == [] then []
    else if ts[0].kind.Space? then Solid(ts[1..])
    else [ts[0]] + Solid(ts[1..])
  }

  datatype Statement = TableOrIndex | Trigger

  /** Token i tells that the one before it is the table name: it opens the columns or names the module
      of a virtual table; or it goes on behind the table of a trigger, which stands behind ON or behind
      the dot of a database name. */
  predicate EndsName(stmt: Statement, solid: seq<Token>, i: nat)
    requires i < |solid|
  {
    match stmt
    case TableOrIndex => solid[i].kind.Lp? || solid[i].kind.Using?
    case Trigger =>
      && i >= 2
      && (solid[i].kind.When? || solid[i].kind.For? || solid[i].kind.Begin?)
      && !solid[i - 1].kind.On? && !solid[i - 1].kind.Dot?
      && (solid[i - 2].kind.On? || solid[i - 2].kind.Dot?)
  }

  /** The text with the token before token i replaced; before the first token nothing is replaced, and
      the name is put in front. */
  function NameReplaced(text: string, solid: seq<Token>, i: nat, name: string): string
    requires i <= |solid| && (i > 0 ==> solid[i - 1].start + solid[i - 1].len <= |text|)
  {
    var from := if i == 0 then 0 else solid[i - 1].start;
    var to := if i == 0 then 0 else solid[i - 1].start + solid[i - 1].len;
    text[..from] + Quoted(name, '"') + text[to..]
  }

  /** No token before token i ends a name. */
  predicate NoneEnds(stmt: Statement, solid: seq<Token>, i: nat)
    requires i <= |solid|
  {
    forall j | 0 <= j < i :: !EndsName(stmt, solid, j)
  }

  /** The first token that ends a name decides; without one the result is null. */
  ghost predicate RenamesFirst(stmt: Statement, text: string, solid: seq<Token>, name: string, r: Option<string>)
    requires forall t | t in solid :: t.start + t.len <= |text|
  {
    match r
    case None => NoneEnds(stmt, solid, |solid|)
    case Some(out) =>
      exists i | 0 <= i < |solid| ::
        EndsName(stmt, solid, i) && NoneEnds(stmt, solid, i) && out == NameReplaced(text, solid, i, name)
  }

  /** There is only one such result. */
  lemma RenameDetermined(stmt: Statement, text: string, solid: seq<Token>, name: string,
                         r: Option<string>, r': Option<string>)
    requires forall t | t in solid :: t.start + t.len <= |text|
    requires RenamesFirst(stmt, text, solid, name, r) && RenamesFirst(stmt, text, solid, name, r')
    ensures r == r'
  {
  }
}
