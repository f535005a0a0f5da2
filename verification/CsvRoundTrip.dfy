/** Writing a table as CSV and importing it again returns the table, exactly for the good separators. */
module CsvRoundTrip {
  import opened CsvFormat
  import opened Quoting

  // ---------- Dequoting undoes quoting ----------

  lemma {:induction false} UnquotedDoubled(z: string)
    ensures Unquoted(Doubled(z, QUOTE) + [QUOTE]) == z
  {
    if z == "" {
      assert Doubled(z, QUOTE) + [QUOTE] == [QUOTE];
    } else {
      UnquotedDoubled(z[1..]);
      var rest := Doubled(z[1..], QUOTE) + [QUOTE];
      if z[0] == QUOTE {
        assert Doubled(z, QUOTE) + [QUOTE] == [QUOTE, QUOTE] + rest;
        assert ([QUOTE, QUOTE] + rest)[2..] == rest;
      } else {
        assert Doubled(z, QUOTE) + [QUOTE] == [z[0]] + rest;
        assert ([z[0]] + rest)[1..] == rest;
      }
      assert z == [z[0]] + z[1..];
    }
  }

  /** A field that is printed plain has no special character and does not start the separator. */
  predicate Plain(u: string, sep: string) {
    && u != ""
    && (forall i | 0 <= i < |u| :: !Special(u[i]))
    && (|sep| == 1 ==> sep[0] !in u)
  }

  lemma PlainField(z: string, sep: string)
    requires sep != "" && !NeedsQuote(z, sep)
    ensures Plain(z, sep) && CsvField(z, sep) == z
  {
    forall i | 0 <= i < |z| ensures !Special(z[i]) && (|sep| == 1 ==> z[i] != sep[0]) {
      assert !Triggers(z, sep, i);
    }
  }

  lemma DequoteField(z: string, sep: string)
    requires sep != ""
    ensures Dequote(CsvField(z, sep)) == z
  {
    if NeedsQuote(z, sep) {
      UnquotedDoubled(z);
      assert CsvField(z, sep)[1..] == Doubled(z, QUOTE) + [QUOTE];
    } else {
      PlainField(z, sep);
      assert !Special(z[0]);
    }
  }

  // ---------- Reading past a field ----------

  lemma OntoOnto(u: string, v: string, pieces: seq<string>)
    requires pieces != []
    ensures Onto(u, Onto(v, pieces)) == Onto(u + v, pieces)
  {
    assert u + (v + pieces[0]) == u + v + pieces[0];
  }

  /** No separator starts inside the first n characters of s. */
  predicate NoSeparator(s: string, sep: string, n: nat)
    requires n <= |s|
  {
    forall j | 0 <= j < n :: !(sep <= s[j..])
  }

  lemma {:induction false} SplitPlain(u: string, rest: string, sep: string, left: int)
    requires sep != "" && (forall i | 0 <= i < |u| :: u[i] != QUOTE)
    requires NoSeparator(u + rest, sep, |u|)
    ensures Split(u + rest, sep, false, left) == Onto(u, Split(rest, sep, false, left))
    decreases |u|
  {
    if u == "" {
      assert u + rest == rest;
      assert "" + Split(rest, sep, false, left)[0] == Split(rest, sep, false, left)[0];
    } else {
      var s := u + rest;
      assert s[0..] == s && !(sep <= s[0..]);
      assert s[1..] == u[1..] + rest;
      forall j | 0 <= j < |u[1..]| ensures !(sep <= s[1..][j..]) {
        assert s[1..][j..] == s[j + 1..];
      }
      SplitPlain(u[1..], rest, sep, left);
      OntoOnto([u[0]], u[1..], Split(rest, sep, false, left));
      assert [u[0]] + u[1..] == u;
    }
  }

  /** Inside quotes nothing is cut, and the doubled quotes keep it so. */
  lemma {:induction false} SplitQuoted(z: string, rest: string, sep: string, left: int)
    requires sep != "" && sep[0] != QUOTE
    ensures Split(Doubled(z, QUOTE) + [QUOTE] + rest, sep, true, left)
         == Onto(Doubled(z, QUOTE) + [QUOTE], Split(rest, sep, false, left))
    decreases |z|
  {
    var r := Split(rest, sep, false, left);
    if z == "" {
      SkipOne(QUOTE, rest, sep, true, left);
      assert Doubled(z, QUOTE) + [QUOTE] == [QUOTE];
    } else {
      var tail := Doubled(z[1..], QUOTE) + [QUOTE];
      SplitQuoted(z[1..], rest, sep, left);
      if z[0] == QUOTE {
        SkipPair(tail, rest, sep, left, r);
        assert [QUOTE, QUOTE] + tail == Doubled(z, QUOTE) + [QUOTE];
      } else {
        SkipQuoted(z[0], tail, rest, sep, left, r);
        assert [z[0]] + tail == Doubled(z, QUOTE) + [QUOTE];
      }
    }
  }

  /** An ordinary character inside quotes, */
  lemma SkipQuoted(c: char, tail: string, rest: string, sep: string, left: int, r: seq<string>)
    requires sep != "" && sep[0] != QUOTE && c != QUOTE && r != []
    requires Split(tail + rest, sep, true, left) == Onto(tail, r)
    ensures Split([c] + tail + rest, sep, true, left) == Onto([c] + tail, r)
  {
    SkipOne(c, tail + rest, sep, true, left);
    assert [c] + (tail + rest) == [c] + tail + rest;
    OntoOnto([c], tail, r);
  }

  /** and a doubled quote. */
  lemma SkipPair(tail: string, rest: string, sep: string, left: int, r: seq<string>)
    requires sep != "" && sep[0] != QUOTE && r != []
    requires Split(tail + rest, sep, true, left) == Onto(tail, r)
    ensures Split([QUOTE, QUOTE] + tail + rest, sep, true, left) == Onto([QUOTE, QUOTE] + tail, r)
  {
    var s := tail + rest;
    SkipOne(QUOTE, [QUOTE] + s, sep, true, left);
    SkipOne(QUOTE, s, sep, false, left);
    assert [QUOTE] + ([QUOTE] + s) == [QUOTE, QUOTE] + tail + rest;
    OntoOnto([QUOTE], [QUOTE], Onto(tail, r));
    assert [QUOTE] + [QUOTE] == [QUOTE, QUOTE];
    OntoOnto([QUOTE, QUOTE], tail, r);
  }

  /** A character that is a quote, or lies in quotes, starts no separator. */
  lemma SkipOne(c: char, rest: string, sep: string, inQuote: bool, left: int)
    requires sep != "" && sep[0] != QUOTE && (c == QUOTE || inQuote)
    ensures Split([c] + rest, sep, inQuote, left) == Onto([c], Split(rest, sep, Toggle(c, inQuote), left))
  {
    assert ([c] + rest)[1..] == rest && ([c] + rest)[0] == c;
  }

  /** In a plain field and the separator after it, the separator starts only at its own place. */
  lemma SeparatorOnlyAfter(u: string, sep: string, tail: string)
    requires GoodSeparator(sep) && Plain(u, sep)
    ensures NoSeparator(u + sep + tail, sep, |u|)
    ensures NoSeparator(u, sep, |u|)
  {
    var s := u + sep + tail;
    forall j | 0 <= j < |u| ensures !(sep <= s[j..]) && !(sep <= u[j..]) {
      assert s[j] == u[j] && u[j] in u;
      if |sep| > 1 {
        var k := FirstSpecial(sep, 0);
        assert s[j + k] == if j + k < |u| then u[j + k] else (sep + tail)[j + k - |u|];
      }
    }
  }

  lemma {:induction false} FirstSpecial(sep: string, n: nat) returns (k: nat)
    requires exists k :: n <= k < |sep| && Special(sep[k])
    ensures n <= k < |sep| && Special(sep[k]) && forall m | n <= m < k :: !Special(sep[m])
    decreases |sep| - n
  {
    if Special(sep[n]) { k := n; } else { k := FirstSpecial(sep, n + 1); }
  }

  /** The splitter takes one printed field off the line. */
  lemma SplitField(z: string, sep: string, rest: string, left: int)
    requires GoodSeparator(sep) && (rest == "" || sep <= rest)
    ensures Split(CsvField(z, sep) + rest, sep, false, left)
         == Onto(CsvField(z, sep), Split(rest, sep, false, left))
  {
    var f := CsvField(z, sep);
    if NeedsQuote(z, sep) {
      var body := Doubled(z, QUOTE) + [QUOTE];
      assert f == [QUOTE] + body;
      assert f + rest == [QUOTE] + (body + rest);
      SkipOne(QUOTE, body + rest, sep, false, left);
      SplitQuoted(z, rest, sep, left);
      OntoOnto([QUOTE], body, Split(rest, sep, false, left));
    } else {
      PlainField(z, sep);
      if rest == "" {
        SeparatorOnlyAfter(z, sep, "");
        assert z + rest == z;
      } else {
        SeparatorOnlyAfter(z, sep, rest[|sep|..]);
        assert z + sep + rest[|sep|..] == z + rest;
      }
      SplitPlain(z, rest, sep, left);
    }
  }

  function Printed(row: seq<string>, sep: string): (r: seq<string>)
    ensures |r| == |row|
  {
    seq(|row|, i requires 0 <= i < |row| => CsvField(row[i], sep))
  }

  lemma {:induction false} SplitRow(row: seq<string>, sep: string)
    requires GoodSeparator(sep) && row != []
    ensures Split(CsvFields(row, sep), sep, false, |row| - 1) == Printed(row, sep)
    decreases |row|
  {
    if |row| == 1 {
      SplitLast(row, sep);
    } else {
      SplitRow(row[1..], sep);
      SplitFirst(row, sep);
    }
  }

  lemma SplitLast(row: seq<string>, sep: string)
    requires GoodSeparator(sep) && |row| == 1
    ensures Split(CsvFields(row, sep), sep, false, 0) == Printed(row, sep)
  {
    var f := CsvField(row[0], sep);
    assert CsvFields(row[1..], sep) == "";
    assert CsvFields(row, sep) == f + "";
    SplitField(row[0], sep, "", 0);
    assert f + "" == f;
    assert Split("", sep, false, 0) == [""];
  }

  /** The first field is cut off, and the separator behind it. */
  lemma SplitFirst(row: seq<string>, sep: string)
    requires GoodSeparator(sep) && |row| > 1
    requires Split(CsvFields(row[1..], sep), sep, false, |row| - 2) == Printed(row[1..], sep)
    ensures Split(CsvFields(row, sep), sep, false, |row| - 1) == Printed(row, sep)
  {
    FieldsHead(row, sep);
    FieldCut(row[0], CsvFields(row[1..], sep), sep, |row| - 1);
    PrintedHead(row, sep);
  }

  lemma FieldsHead(row: seq<string>, sep: string)
    requires |row| > 1
    ensures CsvFields(row, sep) == CsvField(row[0], sep) + (sep + CsvFields(row[1..], sep))
  {
  }

  lemma PrintedHead(row: seq<string>, sep: string)
    requires row != []
    ensures Printed(row, sep) == [CsvField(row[0], sep)] + Printed(row[1..], sep)
  {
  }

  lemma FieldCut(z: string, tail: string, sep: string, left: int)
    requires GoodSeparator(sep) && left > 0
    ensures Split(CsvField(z, sep) + (sep + tail), sep, false, left)
         == [CsvField(z, sep)] + Split(tail, sep, false, left - 1)
  {
    SplitField(z, sep, sep + tail, left);
    SeparatorCuts(sep, tail, left);
    assert CsvField(z, sep) + "" == CsvField(z, sep);
  }

  lemma SeparatorCuts(sep: string, tail: string, left: int)
    requires GoodSeparator(sep) && left > 0
    ensures Split(sep + tail, sep, false, left) == [""] + Split(tail, sep, false, left - 1)
  {
    assert (sep + tail)[|sep|..] == tail && sep <= sep + tail;
    assert (sep + tail)[0] == sep[0];
  }

  // ---------- Reading past the end of a line ----------

  /** In s, read from the given state, no newline ends a line; and the state after it. */
  predicate Continues(s: string, inQuote: bool, after: bool)
    decreases |s|
  {
    if s == "" then after == inQuote
    else
      var q := Toggle(s[0], inQuote);
      !(s[0] == NEWLINE && !q) && Continues(s[1..], q, after)
  }

  lemma {:induction false} ContinuesConcat(s: string, t: string, a: bool, b: bool, c: bool)
    requires Continues(s, a, b) && Continues(t, b, c)
    ensures Continues(s + t, a, c)
    decreases |s|
  {
    if s == "" {
      assert s + t == t;
    } else {
      assert (s + t)[1..] == s[1..] + t;
      ContinuesConcat(s[1..], t, Toggle(s[0], a), b, c);
    }
  }

  lemma {:induction false} LineEndAfter(s: string, t: string, a: bool, b: bool)
    requires Continues(s, a, b)
    ensures LineEnd(s + t, a, true) == |s| + LineEnd(t, b, true)
    decreases |s|
  {
    if s == "" {
      assert s + t == t;
    } else {
      assert (s + t)[1..] == s[1..] + t;
      LineEndAfter(s[1..], t, Toggle(s[0], a), b);
    }
  }

  lemma {:induction false} PlainContinues(u: string)
    requires forall i | 0 <= i < |u| :: !Special(u[i])
    ensures Continues(u, false, false)
    decreases |u|
  {
    if u != "" { PlainContinues(u[1..]); }
  }

  lemma {:induction false} DoubledContinues(z: string)
    ensures Continues(Doubled(z, QUOTE) + [QUOTE], true, false)
    decreases |z|
  {
    if z == "" {
      assert Doubled(z, QUOTE) + [QUOTE] == [QUOTE];
      assert [QUOTE][1..] == "";
    } else {
      DoubledContinues(z[1..]);
      var rest := Doubled(z[1..], QUOTE) + [QUOTE];
      if z[0] == QUOTE {
        var s := [QUOTE, QUOTE] + rest;
        assert Doubled(z, QUOTE) + [QUOTE] == s && s[1..] == [QUOTE] + rest && s[1..][1..] == rest;
        assert Continues(s[1..], false, false);
      } else {
        assert Doubled(z, QUOTE) + [QUOTE] == [z[0]] + rest && ([z[0]] + rest)[1..] == rest;
      }
    }
  }

  lemma FieldContinues(z: string, sep: string)
    requires sep != ""
    ensures Continues(CsvField(z, sep), false, false)
  {
    if NeedsQuote(z, sep) {
      DoubledContinues(z);
      assert CsvField(z, sep)[1..] == Doubled(z, QUOTE) + [QUOTE];
    } else {
      PlainField(z, sep);
      PlainContinues(z);
    }
  }

  /** The state after s is the parity of its quotes. */
  lemma {:induction false} ParityContinues(s: string)
    requires NewlinesQuoted(s)
    ensures Continues(s, false, Quotes(s) % 2 == 1)
    decreases |s|
  {
    if s != "" {
      var t, c := s[..|s| - 1], s[|s| - 1];
      forall k | 0 <= k < |t| && t[k] == NEWLINE ensures Quotes(t[..k]) % 2 == 1 {
        assert s[k] == NEWLINE && s[..k] == t[..k];
      }
      ParityContinues(t);
      var q := Quotes(t) % 2 == 1;
      assert [c][1..] == "";
      assert Continues([c], q, Toggle(c, q));
      ContinuesConcat(t, [c], false, q, Toggle(c, q));
      assert s == t + [c];
    }
  }

  lemma {:induction false} FieldsContinue(row: seq<string>, sep: string)
    requires GoodSeparator(sep)
    ensures Continues(CsvFields(row, sep), false, false)
    decreases |row|
  {
    if row != [] {
      var f, tail := CsvField(row[0], sep), CsvFields(row[1..], sep);
      var mid := if |row| == 1 then "" else sep;
      FieldContinues(row[0], sep);
      ParityContinues(sep);
      FieldsContinue(row[1..], sep);
      ContinuesConcat(f, mid, false, false, false);
      ContinuesConcat(f + mid, tail, false, false, false);
    }
  }

  /** A printed row does not end in a carriage return. */
  lemma {:induction false} FieldsEnd(row: seq<string>, sep: string)
    requires sep != "" && row != []
    ensures CsvFields(row, sep) != ""
    ensures CsvFields(row, sep)[|CsvFields(row, sep)| - 1] != RETURN
    decreases |row|
  {
    if |row| == 1 {
      var f := CsvField(row[0], sep);
      assert CsvFields(row[1..], sep) == "";
      assert CsvFields(row, sep) == f;
      if !NeedsQuote(row[0], sep) {
        PlainField(row[0], sep);
        assert !Special(f[|f| - 1]);
      }
    } else {
      FieldsEnd(row[1..], sep);
    }
  }

  lemma GetRow(row: seq<string>, sep: string, rest: string)
    requires GoodSeparator(sep) && row != []
    ensures GetLine(CsvRow(row, sep) + rest, true) == Line(CsvFields(row, sep), rest)
  {
    var s := CsvFields(row, sep);
    var t := [NEWLINE] + rest;
    FieldsContinue(row, sep);
    FieldsEnd(row, sep);
    LineEndAfter(s, t, false, false);
    assert LineEnd(t, false, true) == 0;
    assert CsvRow(row, sep) + rest == s + t;
    assert (s + t)[..|s|] == s && (s + t)[|s| + 1..] == rest;
  }

  // ---------- The round trip ----------

  /** For a good separator every table survives: all fields, with embedded quotes, separators,
      newlines and empty strings. */
  lemma {:induction false} TablesSurvive(rows: seq<seq<string>>, nCol: nat, sep: string)
    requires GoodSeparator(sep) && Table(rows, nCol)
    ensures SurvivesRoundTrip(rows, nCol, sep)
    decreases |rows|
  {
    if rows != [] {
      var row := rows[0];
      TablesSurvive(rows[1..], nCol, sep);
      GetRow(row, sep, CsvFile(rows[1..], sep));
      SplitRow(row, sep);
      DequotePrinted(row, sep);
      assert rows == [row] + rows[1..];
    }
  }

  lemma DequotePrinted(row: seq<string>, sep: string)
    requires sep != ""
    ensures DequoteAll(Printed(row, sep)) == row
  {
    forall i | 0 <= i < |row| ensures DequoteAll(Printed(row, sep))[i] == row[i] {
      DequoteField(row[i], sep);
    }
  }

  // ---------- The other separators fail ----------

  /** A plain one-character field that is not how the separator starts. */
  function Letter(sep: string): char
    requires sep != ""
  {
    if sep[0] == 'a' then 'b' else 'a'
  }

  lemma LetterField(sep: string)
    requires sep != ""
    ensures CsvField([Letter(sep)], sep) == [Letter(sep)]
    ensures Dequote([Letter(sep)]) == [Letter(sep)]
  {
    assert !Triggers([Letter(sep)], sep, 0);
  }

  /** The printed form of a row of two fields. */
  lemma TwoFields(f: string, g: string, sep: string)
    ensures CsvFile([[f, g]], sep) == CsvField(f, sep) + sep + CsvField(g, sep) + [NEWLINE]
  {
    assert [f, g][1..] == [g] && [g][1..] == [];
    assert CsvFields([g], sep) == CsvField(g, sep) + "" + "";
    assert CsvFields([f, g], sep) == CsvField(f, sep) + sep + CsvFields([g], sep);
    assert [[f, g]][1..] == [];
    assert CsvFile([[f, g]], sep) == CsvRow([f, g], sep) + "";
  }

  /** What a successful import of one row of two fields says about its first line. */
  lemma TwoFieldsBack(f: string, g: string, sep: string)
    requires sep != "" && SurvivesRoundTrip([[f, g]], 2, sep)
    ensures GetLine(CsvFile([[f, g]], sep), true).Line?
    ensures DequoteAll(Split(GetLine(CsvFile([[f, g]], sep), true).line, sep, false, 1)) == [f, g]
  {
    var r := GetLine(CsvFile([[f, g]], sep), true);
    var pieces := Split(r.line, sep, false, 1);
    match Import(r.rest, sep, 2)
    case Rows(rows) => assert ([DequoteAll(pieces)] + rows)[0] == [[f, g]][0];
    case WrongColumns(_, _) =>
  }

  /** If no separator starts at the first two places of a line, the first piece has its first two
      characters. */
  lemma FirstPiece(line: string, sep: string)
    requires sep != "" && |line| >= 2 && line[0] != QUOTE
    requires !(sep <= line) && (line[1] == QUOTE || !(sep <= line[1..]))
    ensures var p := Split(line, sep, false, 1)[0];
            |p| >= 2 && p[0] == line[0] && p[1] == line[1]
    ensures |DequoteAll(Split(line, sep, false, 1))[0]| >= 2
  {
    var s := line[1..];
    assert s[0] == line[1];
  }

  /** A separator that starts with a quote is never found. */
  lemma QuoteFirstFails(sep: string)
    requires sep != "" && sep[0] == QUOTE
    ensures !SurvivesRoundTrip([[[Letter(sep)], [Letter(sep)]]], 2, sep)
  {
    var x := [Letter(sep)];
    LetterField(sep);
    TwoFields(x, x, sep);
    var s := x + sep + x + [NEWLINE];
    assert s[0] == x[0] && s[1] == QUOTE && s[1..][0] == QUOTE;
    var line, k := GetLine(s, true).line, LineEnd(s, false, true);
    assert LineEnd(s[1..], false, true) == 1 + LineEnd(s[1..][1..], true, true);
    assert k == 1 + LineEnd(s[1..], false, true);
    assert |line| >= 2 && line[0] == s[0] && line[1] == s[1];
    FirstPiece(line, sep);
    if SurvivesRoundTrip([[x, x]], 2, sep) {
      TwoFieldsBack(x, x, sep);
    }
  }

  /** A longer separator of ordinary characters is not recognised inside a field. */
  lemma OrdinaryFails(sep: string)
    requires |sep| >= 2 && sep[0] != QUOTE && (forall k | 0 <= k < |sep| :: !Special(sep[k]))
    ensures !SurvivesRoundTrip([[[Letter(sep)] + sep, [Letter(sep)]]], 2, sep)
  {
    var x := [Letter(sep)];
    var f := x + sep;
    LetterField(sep);
    assert CsvField(f, sep) == f by {
      forall i | 0 <= i < |f| ensures !Triggers(f, sep, i) {}
    }
    TwoFields(f, x, sep);
    var u := f + sep + x;
    OrdinaryLine(u);
    assert u == x + (sep + (sep + x));
    CutAfterLetter(sep, sep + x);
    if SurvivesRoundTrip([[f, x]], 2, sep) {
      TwoFieldsBack(f, x, sep);
    }
  }

  /** A text without special characters is read as one line. */
  lemma OrdinaryLine(u: string)
    requires forall i | 0 <= i < |u| :: !Special(u[i])
    ensures GetLine(u + [NEWLINE], true).Line?
    ensures u != "" ==> GetLine(u + [NEWLINE], true).line == u
  {
    PlainContinues(u);
    LineEndAfter(u, [NEWLINE], false, false);
    assert LineEnd([NEWLINE], false, true) == 0;
    assert (u + [NEWLINE])[..|u|] == u;
  }

  /** The first piece ends before the first separator. */
  lemma CutAfterLetter(sep: string, tail: string)
    requires sep != "" && sep[0] != QUOTE
    ensures var pieces := Split([Letter(sep)] + (sep + tail), sep, false, 1);
            pieces == [[Letter(sep)]] + Split(tail, sep, false, 0)
            && DequoteAll(pieces)[0] == [Letter(sep)]
  {
    var x, rest := [Letter(sep)], sep + tail;
    var s := x + rest;
    assert s[1..] == rest && sep <= rest && rest[|sep|..] == tail && rest[0] == sep[0];
    assert !(sep <= s) by { assert s[0] != sep[0]; }
    var more := Split(rest, sep, false, 1);
    assert more == [""] + Split(tail, sep, false, 0);
    assert x + "" == x;
    assert Split(s, sep, false, 1) == [x + more[0]] + more[1..];
    LetterField(sep);
  }

  /** A newline of the separator that is outside quotes ends the line too early. */
  lemma NewlineFails(sep: string)
    requires sep != "" && sep[0] != QUOTE && !NewlinesQuoted(sep)
    ensures !SurvivesRoundTrip([[[Letter(sep)], [Letter(sep)]]], 2, sep)
  {
    var x := [Letter(sep)];
    LetterField(sep);
    TwoFields(x, x, sep);
    var s := x + sep + x + [NEWLINE];
    var k := FirstOpenNewline(sep);
    var t, rest := x + sep[..k], sep[k..] + x + [NEWLINE];
    assert s == t + rest;
    ParityContinues(sep[..k]);
    PlainContinues(x);
    ContinuesConcat(x, sep[..k], false, false, false);
    LineEndAfter(t, rest, false, false);
    assert rest[0] == NEWLINE;
    assert LineEnd(s, false, true) == |t|;
    assert s[..|t|] == t;
    var line := StripReturn(t);
    assert GetLine(s, true).line == line;
    if SurvivesRoundTrip([[x, x]], 2, sep) {
      TwoFieldsBack(x, x, sep);
      ShortLine(line, sep);
    }
  }

  /** The first newline of sep outside quotes. */
  lemma FirstOpenNewline(sep: string) returns (k: nat)
    requires !NewlinesQuoted(sep)
    ensures k < |sep| && sep[k] == NEWLINE && Quotes(sep[..k]) % 2 == 0 && NewlinesQuoted(sep[..k])
  {
    var n :| 0 <= n < |sep| && sep[n] == NEWLINE && Quotes(sep[..n]) % 2 != 1;
    if NewlinesQuoted(sep[..n]) {
      k := n;
    } else {
      k := FirstOpenNewline(sep[..n]);
      assert sep[..n][..k] == sep[..k];
    }
  }

  /** A line shorter than the separator is not cut. */
  lemma {:induction false} ShortLine(line: string, sep: string)
    requires sep != "" && |line| <= |sep| && (|line| == |sep| ==> line[0] != sep[0])
    ensures forall q, left :: |Split(line, sep, q, left)| == 1
    decreases |line|
  {
    if line != "" {
      ShortLine(line[1..], sep);
    }
  }

  /** With an odd number of quotes in the separator the row's own newline does not end the line. */
  lemma OddLine(sep: string)
    requires sep != "" && sep[0] != QUOTE && Quotes(sep) % 2 == 1 && NewlinesQuoted(sep)
    ensures var x := [Letter(sep)];
            var s := x + sep + x + [NEWLINE];
            GetLine(s, true) == Line(s, "")
  {
    var x := [Letter(sep)];
    LetterField(sep);
    var tail := x + [NEWLINE];
    var s := x + sep + x + [NEWLINE];
    assert s == (x + sep) + tail;
    PlainContinues(x);
    ParityContinues(sep);
    ContinuesConcat(x, sep, false, false, true);
    LineEndAfter(x + sep, tail, false, true);
    assert tail[1..] == [NEWLINE] && [NEWLINE][1..] == "";
    assert LineEnd(tail, true, true) == 2;
  }

  lemma OddFails(sep: string)
    requires sep != "" && sep[0] != QUOTE && Quotes(sep) % 2 == 1 && NewlinesQuoted(sep)
    ensures !SurvivesRoundTrip([[[Letter(sep)], [Letter(sep)]]], 2, sep)
  {
    var x := [Letter(sep)];
    TwoFields(x, x, sep);
    LetterField(sep);
    OddPieces(sep);
    OddLine(sep);
    if SurvivesRoundTrip([[x, x]], 2, sep) {
      TwoFieldsBack(x, x, sep);
      SecondPiece(Split(GetLine(CsvFile([[x, x]], sep), true).line, sep, false, 1), x);
    }
  }

  lemma SecondPiece(pieces: seq<string>, x: string)
    requires DequoteAll(pieces) == [x, x]
    ensures |pieces| == 2 && Dequote(pieces[1]) == x
  {
    assert |DequoteAll(pieces)| == 2 && DequoteAll(pieces)[1] == x;
  }

  /** The pieces of that line are not the row. */
  lemma OddPieces(sep: string)
    requires sep != "" && sep[0] != QUOTE && Quotes(sep) % 2 == 1 && NewlinesQuoted(sep)
    ensures var x := [Letter(sep)];
            var pieces := Split(x + sep + x + [NEWLINE], sep, false, 1);
            |pieces| != 2 || Dequote(pieces[1]) != x
  {
    var x := [Letter(sep)];
    var tail := x + [NEWLINE];
    assert x + sep + x + [NEWLINE] == x + (sep + tail);
    CutAfterLetter(sep, tail);
    LastPiece(sep, Split(tail, sep, false, 0));
  }

  /** What is left of the row keeps its newline, or is cut once more. */
  lemma LastPiece(sep: string, more: seq<string>)
    requires sep != "" && more == Split([Letter(sep)] + [NEWLINE], sep, false, 0)
    ensures |more| > 1 || Dequote(more[0]) != [Letter(sep)]
  {
    var s := [Letter(sep)] + [NEWLINE];
    assert s[1..] == [NEWLINE] && [NEWLINE][1..] == "";
    assert !(sep <= s) by { assert s[0] != sep[0]; }
    var r := Split([NEWLINE], sep, false, 0);
    assert more == [[Letter(sep)] + r[0]] + r[1..];
    assert Split("", sep, false, 0) == [""];
    if !(sep <= [NEWLINE]) {
      assert r == [[NEWLINE] + ""];
    }
  }

  /** The exact condition: a separator returns every table that is written with it if and only if
      it is good. */
  lemma SeparatorWorksIff(sep: string)
    requires sep != ""
    ensures (forall rows, nCol: nat | Table(rows, nCol) :: SurvivesRoundTrip(rows, nCol, sep))
            <==> GoodSeparator(sep)
  {
    if GoodSeparator(sep) {
      forall rows, nCol: nat | Table(rows, nCol) ensures SurvivesRoundTrip(rows, nCol, sep) {
        TablesSurvive(rows, nCol, sep);
      }
    } else {
      var rows, nCol := FailingTable(sep);
    }
  }

  lemma FailingTable(sep: string) returns (rows: seq<seq<string>>, nCol: nat)
    requires sep != "" && !GoodSeparator(sep)
    ensures Table(rows, nCol) && !SurvivesRoundTrip(rows, nCol, sep)
  {
    var x := [Letter(sep)];
    nCol := 2;
    rows := [[x, x]];
    if sep[0] == QUOTE {
      QuoteFirstFails(sep);
    } else if !NewlinesQuoted(sep) {
      NewlineFails(sep);
    } else if Quotes(sep) % 2 == 1 {
      OddFails(sep);
    } else {
      rows := [[x + sep, x]];
      OrdinaryFails(sep);
    }
  }
}
