/** The SQL functions behind ALTER TABLE ... RENAME (sqlcipher/src/alter.c), as loops over the text. */
module AlterRename {
  import opened AlterTokens
  import opened Names
  import opened Quoting

  // ---------- renameParentFunc ----------

  /** What is fixed while renameParentFunc runs: `due[i]` is what the first i tokens are to become. */
  datatype Job = Job(text: string, lex: seq<Lex>, oldName: string, newName: string,
                     ghost ts: seq<Token>, ghost due: seq<string>)
  {
    /** Token i adds its renamed text. */
    ghost predicate Adds(i: nat)
      requires i < |ts| && |due| == |ts| + 1 && Lexes(text, lex)
    {
      InPlace(text, lex, ts, i) && due[i + 1] == due[i] + Renamed(text, ts, oldName, newName, i)
    }

    ghost predicate Valid() {
      && Tiles(text, lex, ts, 0) && !Owed(ts, |ts|)
      && |due| == |ts| + 1 && due[0] == ""
      && forall i | 0 <= i < |ts| :: Adds(i)
    }
  }

  /** At position z, before token i, the output and the text that is still to be copied are what the
      first i tokens are to become. */
  ghost predicate Streaming(job: Job, i: nat, z: nat, from: nat, output: string) {
    && job.Valid() && i <= |job.ts| && z == StartOf(job.text, job.ts, i) && from <= z <= |job.text|
    && output + job.text[from..z] == job.due[i]
  }

  /** The token at position z. */
  lemma TokenHere(job: Job, i: nat, z: nat, from: nat, output: string)
    requires Streaming(job, i, z, from, output) && z < |job.text|
    ensures i < |job.ts| && job.ts[i] == Token(job.lex[z].kind, z, job.lex[z].len)
    ensures 0 < job.lex[z].len <= |job.text| - z
    ensures StartOf(job.text, job.ts, i + 1) == z + job.lex[z].len
  {
    assert InPlace(job.text, job.lex, job.ts, i);
  }

  /** A token that is kept is copied later. */
  lemma PassToken(job: Job, i: nat, z: nat, from: nat, output: string)
    requires Streaming(job, i, z, from, output) && z < |job.text| && i < |job.ts|
    requires InPlace(job.text, job.lex, job.ts, i)
    requires Renamed(job.text, job.ts, job.oldName, job.newName, i) == TextOf(job.text, job.ts[i])
    ensures Streaming(job, i + 1, z + job.lex[z].len, from, output)
  {
    var n := job.lex[z].len;
    assert job.Adds(i);
    assert job.text[from..z + n] == job.text[from..z] + job.text[z..z + n];
  }

  /** The end of the text owes nothing. */
  lemma MoreToCome(job: Job, i: nat, z: nat, from: nat, output: string)
    requires Streaming(job, i, z, from, output) && Owed(job.ts, i)
    ensures z < |job.text|
  {
    if i < |job.ts| { assert InPlace(job.text, job.lex, job.ts, i); }
  }

  /** A token that is no parent is passed over. */
  lemma PassOther(job: Job, i: nat, z: nat, from: nat, output: string)
    requires Streaming(job, i, z, from, output) && z < |job.text|
    requires i < |job.ts| && !IsParent(job.ts, i)
    ensures Streaming(job, i + 1, z + job.lex[z].len, from, output)
    ensures Owed(job.ts, i + 1) ==> z + job.lex[z].len < |job.text|
  {
    assert InPlace(job.text, job.lex, job.ts, i);
    PassToken(job, i, z, from, output);
    if Owed(job.ts, i + 1) { MoreToCome(job, i + 1, z + job.lex[z].len, from, output); }
  }

  /** The inner loop: behind REFERENCES the spaces are skipped. */
  method SkipToParent(job: Job, z: nat, n: nat, ghost i: nat, ghost from: nat, ghost output: string)
    returns (z': nat, n': nat, ghost i': nat)
    requires Streaming(job, i, z, from, output) && z < |job.text|
    requires job.lex[z] == Lex(References, n) && !Owed(job.ts, i)
    ensures Streaming(job, i', z', from, output) && z <= z' < |job.text|
    ensures n' == job.lex[z'].len && i' < |job.ts| && IsParent(job.ts, i')
  {
    TokenHere(job, i, z, from, output);
    PassOther(job, i, z, from, output);
    z', i' := z + n, i + 1;
    TokenHere(job, i', z', from, output);
    var token := job.lex[z'];
    while token.kind.Space?
      invariant Streaming(job, i', z', from, output) && z <= z' < |job.text| && token == job.lex[z']
      invariant i' < |job.ts| && job.ts[i'].kind == token.kind && Owed(job.ts, i')
      decreases |job.text| - z'
    {
      TokenHere(job, i', z', from, output);
      PassOther(job, i', z', from, output);
      z', i' := z' + token.len, i' + 1;
      TokenHere(job, i', z', from, output);
      token := job.lex[z'];
    }
    n' := token.len;
  }

  /** A parent that is the old name is written, with the text before it. */
  lemma RenameToken(job: Job, i: nat, z: nat, from: nat, output: string)
    requires Streaming(job, i, z, from, output) && z < |job.text| && i < |job.ts|
    requires InPlace(job.text, job.lex, job.ts, i)
    requires Renamed(job.text, job.ts, job.oldName, job.newName, i) == Quoted(job.newName, '"')
    ensures var z' := z + job.lex[z].len;
            Streaming(job, i + 1, z', z', output + job.text[from..z] + Quoted(job.newName, '"'))
  {
    assert job.Adds(i);
    var z', output' := z + job.lex[z].len, output + job.text[from..z] + Quoted(job.newName, '"');
    assert output' + job.text[z'..z'] == output';
  }

  /** The parent of a foreign key: it is compared with the old name, and replaced or kept. */
  method RenameHere(job: Job, z: nat, n: nat, from: nat, zOutput: string, ghost i: nat)
    returns (from': nat, zOutput': string)
    requires Streaming(job, i, z, from, zOutput) && z < |job.text| && n == job.lex[z].len
    requires i < |job.ts| && IsParent(job.ts, i)
    ensures Streaming(job, i + 1, z + n, from', zOutput')
  {
    TokenHere(job, i, z, from, zOutput);
    var zParent := Dequoted(job.text[z..z + n]);
    if SameName(job.oldName, zParent) {
      zOutput' := zOutput + job.text[from..z] + Quoted(job.newName, '"');
      from' := z + n;
      RenameToken(job, i, z, from, zOutput);
    } else {
      from', zOutput' := from, zOutput;
      PassToken(job, i, z, from, zOutput);
    }
  }

  method StartJob(zInput: string, lex: seq<Lex>, zOld: string, zNew: string) returns (job: Job)
    requires Lexes(zInput, lex) && !Owed(Tokens(zInput, lex, 0), |Tokens(zInput, lex, 0)|)
    ensures job.Valid() && job.text == zInput && job.lex == lex && job.oldName == zOld && job.newName == zNew
    ensures job.ts == Tokens(zInput, lex, 0) && Tiles(zInput, lex, job.ts, 0)
    ensures job.due[|job.ts|] == AllRenamed(zInput, lex, job.ts, zOld, zNew, |job.ts|)
  {
    TokensTile(zInput, lex, 0);
    ghost var ts := Tokens(zInput, lex, 0);
    ghost var due := seq(|ts| + 1, i requires 0 <= i <= |ts| => AllRenamed(zInput, lex, ts, zOld, zNew, i));
    job := Job(zInput, lex, zOld, zNew, ts, due);
    assert forall i | 0 <= i < |ts| :: InPlace(zInput, lex, ts, i) && job.Adds(i);
  }

  method RenameParent(zInput: string, lex: seq<Lex>, zOld: string, zNew: string) returns (zResult: string)
    requires Lexes(zInput, lex) && !Owed(Tokens(zInput, lex, 0), |Tokens(zInput, lex, 0)|)
    ensures Tiles(zInput, lex, Tokens(zInput, lex, 0), 0)
    ensures var ts := Tokens(zInput, lex, 0); zResult == AllRenamed(zInput, lex, ts, zOld, zNew, |ts|)
  {
    var job := StartJob(zInput, lex, zOld, zNew);
    zResult := RenameLoop(job);
  }

  /** The loop over the text. */
  method RenameLoop(job: Job) returns (zResult: string)
    requires job.Valid()
    ensures zResult == job.due[|job.ts|]
  {
    var zOutput, from: nat, z: nat := "", 0, 0;
    ghost var i: nat := 0;
    while z < |job.text|
      invariant Streaming(job, i, z, from, zOutput) && !Owed(job.ts, i)
      decreases |job.text| - z
    {
      TokenHere(job, i, z, from, zOutput);
      var n := job.lex[z].len;
      if job.lex[z].kind.References? {
        z, n, i := SkipToParent(job, z, n, i, from, zOutput);
        from, zOutput := RenameHere(job, z, n, from, zOutput, i);
      } else {
        PassOther(job, i, z, from, zOutput);
      }
      z, i := z + n, i + 1;
    }
    AtEnd(job, i, z, from, zOutput);
    zResult := zOutput + job.text[from..];
  }

  lemma AtEnd(job: Job, i: nat, z: nat, from: nat, output: string)
    requires Streaming(job, i, z, from, output) && z == |job.text|
    ensures output + job.text[from..] == job.due[|job.ts|]
  {
    assert i < |job.ts| ==> InPlace(job.text, job.lex, job.ts, i);
    assert i == |job.ts|;
  }

  // ---------- renameTableFunc and renameTriggerFunc ----------

  /** p tokens have been read, i of them no spaces; the last of these stands at z. */
  predicate Walked(text: string, lex: seq<Lex>, ts: seq<Token>, p: nat, i: nat, z: nat, len: nat) {
    && Tiles(text, lex, ts, 0) && p <= |ts| && StartOf(text, ts, p) == z + len
    && i <= |Solid(ts)| && Solid(ts[p..]) == Solid(ts)[i..]
    && (if i == 0 then z == 0 && len == 0 else Solid(ts)[i - 1].start == z && Solid(ts)[i - 1].len == len)
  }

  lemma SolidStep(ts: seq<Token>, p: nat, i: nat)
    requires p < |ts| && i <= |Solid(ts)| && Solid(ts[p..]) == Solid(ts)[i..]
    ensures ts[p].kind.Space? ==> Solid(ts[p + 1..]) == Solid(ts)[i..]
    ensures !ts[p].kind.Space? ==>
              i < |Solid(ts)| && Solid(ts)[i] == ts[p] && Solid(ts[p + 1..]) == Solid(ts)[i + 1..]
  {
    assert ts[p..][0] == ts[p] && ts[p..][1..] == ts[p + 1..];
    if !ts[p].kind.Space? {
      assert Solid(ts)[i..][0] == Solid(ts)[i] && Solid(ts)[i..][1..] == Solid(ts)[i + 1..];
    }
  }

  /** At position z, before token p, with i tokens before it that are no spaces. */
  predicate Between(text: string, lex: seq<Lex>, ts: seq<Token>, p: nat, i: nat, z: nat) {
    && Tiles(text, lex, ts, 0) && p <= |ts| && StartOf(text, ts, p) == z
    && i <= |Solid(ts)| && Solid(ts[p..]) == Solid(ts)[i..]
  }

  lemma BetweenStep(text: string, lex: seq<Lex>, ts: seq<Token>, p: nat, i: nat, z: nat)
    requires Between(text, lex, ts, p, i, z)
    ensures z <= |text| && (z == |text| <==> p == |ts|)
    ensures z == |text| ==> i == |Solid(ts)| && !lex[z].kind.Space?
    ensures z < |text| ==> p < |ts| && ts[p] == Token(lex[z].kind, z, lex[z].len) && lex[z].len > 0
    ensures z < |text| && lex[z].kind.Space? ==> Between(text, lex, ts, p + 1, i, z + lex[z].len)
    ensures z < |text| && !lex[z].kind.Space? ==>
              Solid(ts)[i..] != [] && Solid(ts)[i] == ts[p] && Walked(text, lex, ts, p + 1, i + 1, z, lex[z].len)
  {
    assert p < |ts| ==> InPlace(text, lex, ts, p);
    if p < |ts| {
      SolidStep(ts, p, i);
    } else {
      assert Solid(ts)[i..] == [];
    }
  }

  /** The inner loop: the next token that is no space, or the end of the text. */
  method NextSolid(text: string, lex: seq<Lex>, z: nat, len: nat, ghost ts: seq<Token>, ghost p: nat, ghost i: nat)
    returns (z': nat, lex': Lex, ghost p': nat)
    requires Walked(text, lex, ts, p, i, z, len)
    ensures z + len <= z' <= |text| && lex' == lex[z']
    ensures z' == |text| <==> i == |Solid(ts)|
    ensures z' < |text| ==> Walked(text, lex, ts, p', i + 1, z', lex'.len)
                            && lex'.kind == Solid(ts)[i].kind
  {
    z', p' := z + len, p;
    assert Between(text, lex, ts, p', i, z');
    BetweenStep(text, lex, ts, p', i, z');
    lex' := lex[z'];
    while lex'.kind.Space?
      invariant z + len <= z' <= |text| && Between(text, lex, ts, p', i, z') && lex' == lex[z']
      decreases |text| - z'
    {
      BetweenStep(text, lex, ts, p', i, z');
      z', p' := z' + lex'.len, p' + 1;
      lex' := lex[z'];
    }
    BetweenStep(text, lex, ts, p', i, z');
    p' := p' + 1;
  }

  /** The search has read i tokens, and none of them ends a name; behind the text all are read. */
  predicate Searching(stmt: Statement, text: string, lex: seq<Lex>, ts: seq<Token>, p: nat, i: nat, z: nat, len: nat)
  {
    && i <= |Solid(ts)| && NoneEnds(stmt, Solid(ts), i)
    && if z == |text| then i == |Solid(ts)| else Walked(text, lex, ts, p, i, z, len)
  }

  lemma SolidInText(text: string, lex: seq<Lex>, ts: seq<Token>)
    requires Tiles(text, lex, ts, 0)
    ensures forall t | t in Solid(ts) :: t.start + t.len <= |text|
  {
    forall t | t in Solid(ts) ensures t.start + t.len <= |text| {
      var i :| 0 <= i < |ts| && ts[i] == t;
      assert InPlace(text, lex, ts, i);
    }
  }

  lemma SearchStart(stmt: Statement, text: string, lex: seq<Lex>, ts: seq<Token>)
    requires Tiles(text, lex, ts, 0)
    ensures Searching(stmt, text, lex, ts, 0, 0, 0, 0)
  {
    assert ts[0..] == ts && Solid(ts)[0..] == Solid(ts);
    assert ts != [] ==> InPlace(text, lex, ts, 0);
  }

  /** The token that was read last is replaced. */
  lemma Found(stmt: Statement, text: string, lex: seq<Lex>, ts: seq<Token>, p: nat, i: nat, z: nat, len: nat,
              name: string, out: string)
    requires Searching(stmt, text, lex, ts, p, i, z, len) && z < |text|
    requires i < |Solid(ts)| && EndsName(stmt, Solid(ts), i) && z + len <= |text|
    requires out == text[..z] + Quoted(name, '"') + text[z + len..]
    ensures (forall t | t in Solid(ts) :: t.start + t.len <= |text|)
    ensures RenamesFirst(stmt, text, Solid(ts), name, Some(out))
  {
    SolidInText(text, lex, ts);
    assert out == NameReplaced(text, Solid(ts), i, name);
  }

  /** Reading one more token. */
  method ReadSolid(ghost stmt: Statement, text: string, lex: seq<Lex>, z: nat, len: nat,
                   ghost ts: seq<Token>, ghost p: nat, ghost i: nat)
    returns (z': nat, token: Lex, ghost p': nat, ghost i': nat)
    requires Searching(stmt, text, lex, ts, p, i, z, len) && z < |text|
    ensures z' <= |text| && token == lex[z'] && z + len <= |text|
    ensures z' == |text| ==> i' == i == |Solid(ts)| && token.kind == Other
    ensures z' < |text| ==> i' == i + 1 <= |Solid(ts)| && token.kind == Solid(ts)[i].kind
    ensures z' == |text| || !EndsName(stmt, Solid(ts), i) ==> Searching(stmt, text, lex, ts, p', i', z', token.len)
  {
    z', token, p' := NextSolid(text, lex, z, len, ts, p, i);
    i' := if z' == |text| then i else i + 1;
  }

  /** The promise of both functions. */
  ghost predicate Promise(stmt: Statement, text: string, ts: seq<Token>, name: string, r: Option<string>) {
    (forall t | t in Solid(ts) :: t.start + t.len <= |text|) && RenamesFirst(stmt, text, Solid(ts), name, r)
  }

  method RenameTable(zSql: string, lex: seq<Lex>, zTableName: string) returns (r: Option<string>)
    requires Lexes(zSql, lex)
    ensures Promise(TableOrIndex, zSql, Tokens(zSql, lex, 0), zTableName, r)
  {
    TokensTile(zSql, lex, 0);
    r := FindTable(zSql, lex, zTableName, Tokens(zSql, lex, 0));
  }

  method FindTable(zSql: string, lex: seq<Lex>, zTableName: string, ghost ts: seq<Token>) returns (r: Option<string>)
    requires Tiles(zSql, lex, ts, 0)
    ensures Promise(TableOrIndex, zSql, ts, zTableName, r)
  {
    SolidInText(zSql, lex, ts);
    var zCsr: nat, len: nat := 0, 0;
    ghost var p: nat, i: nat := 0, 0;
    SearchStart(TableOrIndex, zSql, lex, ts);
    while zCsr < |zSql|
      invariant zCsr <= |zSql| && Searching(TableOrIndex, zSql, lex, ts, p, i, zCsr, len)
      decreases |Solid(ts)| - i, |zSql| - zCsr
    {
      ghost var p0, i0 := p, i;
      var name, n := zCsr, len;
      var token;
      zCsr, token, p, i := ReadSolid(TableOrIndex, zSql, lex, zCsr, len, ts, p, i);
      len := token.len;
      if token.kind.Lp? || token.kind.Using? {
        var zRet := zSql[..name] + Quoted(zTableName, '"') + zSql[name + n..];
        Found(TableOrIndex, zSql, lex, ts, p0, i0, name, n, zTableName, zRet);
        return Some(zRet);
      }
    }
    return None;
  }

  predicate OnOrDot(t: Token) {
    t.kind.On? || t.kind.Dot?
  }

  /** The value of `dist` when i tokens have been read. */
  function Dist(solid: seq<Token>, i: nat): nat
    requires i <= |solid|
  {
    if i == 0 then 3 else if OnOrDot(solid[i - 1]) then 0 else Dist(solid, i - 1) + 1
  }

  /** It is 2 exactly when the token two back is ON or DOT and the two since are not. */
  lemma DistTwo(solid: seq<Token>, i: nat)
    requires i <= |solid|
    ensures Dist(solid, i) == 2 <==>
            i >= 3 && OnOrDot(solid[i - 3]) && !OnOrDot(solid[i - 2]) && !OnOrDot(solid[i - 1])
  {
    if i >= 1 && !OnOrDot(solid[i - 1]) {
      assert Dist(solid, i) == Dist(solid, i - 1) + 1;
      if i >= 2 && !OnOrDot(solid[i - 2]) {
        assert Dist(solid, i - 1) == Dist(solid, i - 2) + 1;
      }
    }
  }

  predicate GoesOn(kind: Kind) {
    kind.When? || kind.For? || kind.Begin?
  }

  method RenameTrigger(zSql: string, lex: seq<Lex>, zTableName: string) returns (r: Option<string>)
    requires Lexes(zSql, lex)
    ensures Promise(Trigger, zSql, Tokens(zSql, lex, 0), zTableName, r)
  {
    TokensTile(zSql, lex, 0);
    r := FindTrigger(zSql, lex, zTableName, Tokens(zSql, lex, 0));
  }

  method FindTrigger(zSql: string, lex: seq<Lex>, zTableName: string, ghost ts: seq<Token>) returns (r: Option<string>)
    requires Tiles(zSql, lex, ts, 0)
    ensures Promise(Trigger, zSql, ts, zTableName, r)
  {
    SolidInText(zSql, lex, ts);
    var dist, zCsr: nat, len: nat := 3, 0, 0;
    ghost var p: nat, i: nat := 0, 0;
    SearchStart(Trigger, zSql, lex, ts);
    while zCsr < |zSql|
      invariant zCsr <= |zSql| && Searching(Trigger, zSql, lex, ts, p, i, zCsr, len)
      invariant zCsr < |zSql| ==> dist == Dist(Solid(ts), i)
      decreases |Solid(ts)| - i, |zSql| - zCsr
    {
      ghost var p0, i0 := p, i;
      var name, n := zCsr, len;
      var token;
      zCsr, token, p, i := ReadSolid(Trigger, zSql, lex, zCsr, len, ts, p, i);
      len := token.len;
      dist := dist + 1;
      if token.kind.Dot? || token.kind.On? { dist := 0; }
      if i > i0 { EndsWhen(Solid(ts), i0); }
      if dist == 2 && GoesOn(token.kind) {
        var zRet := zSql[..name] + Quoted(zTableName, '"') + zSql[name + n..];
        Found(Trigger, zSql, lex, ts, p0, i0, name, n, zTableName, zRet);
        return Some(zRet);
      }
    }
    return None;
  }

  lemma EndsWhen(solid: seq<Token>, i: nat)
    requires i < |solid|
    ensures EndsName(Trigger, solid, i) <==> Dist(solid, i + 1) == 2 && GoesOn(solid[i].kind)
    ensures Dist(solid, i + 1) == if OnOrDot(solid[i]) then 0 else Dist(solid, i) + 1
  {
    DistTwo(solid, i + 1);
  }
}
