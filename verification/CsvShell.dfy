/** The routines of the shell that write and import CSV, on files, buffers and pointers. */
module CsvShell {
  import opened CsvFormat
  import opened Names
  import opened Quoting
  import opened ShellFile

  // ---------- Output ----------

  lemma DoubledStep(z: string, i: nat)
    requires i < |z|
    ensures Doubled(z[i..], QUOTE) == (if z[i] == QUOTE then [QUOTE, QUOTE] else [z[i]]) + Doubled(z[i + 1..], QUOTE)
  {
    assert z[i..][0] == z[i] && z[i..][1..] == z[i + 1..];
  }

  /** The scan of output_csv: i is left at 0 when the field has to be quoted. */
  method ScanField(z: string, sep: string) returns (i: nat)
    ensures i == 0 <==> NeedsQuote(z, sep)
  {
    i := 0;
    while i < |z|
      invariant 0 <= i <= |z|
      invariant forall j | 0 <= j < i :: !Triggers(z, sep, j)
    {
      if Special(z[i]) || (|sep| > 0 && z[i] == sep[0] && (|sep| == 1 || sep <= z)) {
        assert Triggers(z, sep, i);
        return 0;
      }
      i := i + 1;
    }
  }

  /** Printing b behind a leaves c to be printed. */
  lemma Printed(all: string, a: string, b: string, c: string)
    requires all == a + (b + c)
    ensures all == (a + b) + c
  {
    assert a + (b + c) == (a + b) + c;
  }

  lemma Joined(now: string, was: string, line: string, rest: string, lines: string)
    requires now == was + line && lines == line + rest
    ensures now + rest == was + lines
  {
  }

  method PutDoubled(out: OutFile, z: string)
    modifies out
    ensures out.text == old(out.text) + Doubled(z, QUOTE)
  {
    var j := 0;
    assert z[0..] == z;
    while j < |z|
      invariant 0 <= j <= |z|
      invariant out.text + Doubled(z[j..], QUOTE) == old(out.text) + Doubled(z, QUOTE)
    {
      DoubledStep(z, j);
      ghost var was := out.text;
      if z[j] == QUOTE { out.Putc(QUOTE); }
      out.Putc(z[j]);
      assert was + Doubled(z[j..], QUOTE) == out.text + Doubled(z[j + 1..], QUOTE);
      j := j + 1;
    }
    assert out.text + "" == out.text;
  }

  /** output_csv for a field that is not NULL. */
  method OutputText(out: OutFile, z: string, sep: string)
    modifies out
    ensures out.text == old(out.text) + CsvField(z, sep)
  {
    var i := ScanField(z, sep);
    if i == 0 {
      out.Putc(QUOTE);
      PutDoubled(out, z);
      out.Putc(QUOTE);
      assert out.text == old(out.text) + ([QUOTE] + Doubled(z, QUOTE) + [QUOTE]);
    } else {
      out.Puts(z);
    }
  }

  /** output_csv. */
  method OutputCsv(out: OutFile, z: Option<string>, nullvalue: string, sep: string, bSep: bool)
    modifies out
    ensures out.text == old(out.text) + CsvCell(z, nullvalue, sep) + (if bSep then sep else "")
  {
    match z {
      case None => out.Puts(nullvalue);
      case Some(text) => OutputText(out, text, sep);
    }
    if bSep {
      out.Puts(sep);
    }
  }

  lemma CellsStep(row: seq<Option<string>>, nullvalue: string, sep: string, i: nat)
    requires i < |row|
    ensures CsvCells(row[i..], nullvalue, sep) ==
            CsvCell(row[i], nullvalue, sep) + (if i < |row| - 1 then sep else "")
            + CsvCells(row[i + 1..], nullvalue, sep)
  {
    assert row[i..][0] == row[i] && row[i..][1..] == row[i + 1..];
  }

  lemma LinesStep(rows: seq<Option<seq<Option<string>>>>, nullvalue: string, sep: string, i: nat)
    requires i < |rows|
    ensures CsvLines(rows[i..], nullvalue, sep) ==
            CsvLine(rows[i], nullvalue, sep) + CsvLines(rows[i + 1..], nullvalue, sep)
  {
    assert rows[i..][0] == rows[i] && rows[i..][1..] == rows[i + 1..];
  }

  /** The loop over the columns of a row. */
  method OutputCells(out: OutFile, row: seq<Option<string>>, nullvalue: string, sep: string)
    modifies out
    ensures out.text == old(out.text) + CsvCells(row, nullvalue, sep)
  {
    var i := 0;
    assert row[0..] == row;
    while i < |row|
      invariant 0 <= i <= |row|
      invariant out.text + CsvCells(row[i..], nullvalue, sep) == old(out.text) + CsvCells(row, nullvalue, sep)
    {
      ghost var was := out.text;
      OutputCsv(out, row[i], nullvalue, sep, i < |row| - 1);
      CellsStep(row, nullvalue, sep, i);
      Printed(old(out.text) + CsvCells(row, nullvalue, sep), was,
              CsvCell(row[i], nullvalue, sep) + (if i < |row| - 1 then sep else ""),
              CsvCells(row[i + 1..], nullvalue, sep));
      i := i + 1;
    }
    assert CsvCells(row[i..], nullvalue, sep) == "" && out.text + "" == out.text;
  }

  /** The loop over the names of the columns. */
  method OutputHeader(out: OutFile, azCol: seq<Option<string>>, sep: string)
    modifies out
    ensures out.text == old(out.text) + CsvRow(ColumnNames(azCol), sep)
  {
    ghost var names := ColumnNames(azCol);
    PresentCells(names, "", sep);
    OutputCells(out, Present(ColumnNames(azCol)), "", sep);
    out.Putc(NEWLINE);
    assert out.text == old(out.text) + CsvRow(names, sep);
  }

  /** The MODE_Csv branch of the row callback; cnt counts its calls. */
  method OutputRow(out: OutFile, azCol: seq<Option<string>>, azArg: Option<seq<Option<string>>>, cnt: nat,
                   showHeader: bool, nullvalue: string, sep: string)
    modifies out
    ensures out.text == old(out.text) + (if cnt == 0 && showHeader then CsvRow(ColumnNames(azCol), sep) else "")
                        + CsvLine(azArg, nullvalue, sep)
  {
    if cnt == 0 && showHeader {
      OutputHeader(out, azCol, sep);
    }
    ghost var was := out.text;
    assert was + "" == was;
    match azArg {
      case None =>
      case Some(row) =>
        OutputCells(out, row, nullvalue, sep);
        out.Putc(NEWLINE);
        assert out.text == was + (CsvCells(row, nullvalue, sep) + [NEWLINE]);
    }
  }

  /** What is printed before the first row. */
  function Heading(azCol: seq<Option<string>>, rows: seq<Option<seq<Option<string>>>>, showHeader: bool,
                   sep: string): string
  {
    if rows != [] && showHeader then CsvRow(ColumnNames(azCol), sep) else ""
  }

  /** The callback for row i. */
  method OutputNext(out: OutFile, azCol: seq<Option<string>>, rows: seq<Option<seq<Option<string>>>>, i: nat,
                    showHeader: bool, nullvalue: string, sep: string)
    requires i < |rows|
    modifies out
    ensures out.text + CsvLines(rows[i + 1..], nullvalue, sep) ==
            old(out.text) + (if i == 0 then Heading(azCol, rows, showHeader, sep) else "")
            + CsvLines(rows[i..], nullvalue, sep)
  {
    ghost var head := if i == 0 then Heading(azCol, rows, showHeader, sep) else "";
    ghost var line, rest := CsvLine(rows[i], nullvalue, sep), CsvLines(rows[i + 1..], nullvalue, sep);
    OutputRow(out, azCol, rows[i], i, showHeader, nullvalue, sep);
    LinesStep(rows, nullvalue, sep, i);
    Joined(out.text, old(out.text) + head, line, rest, CsvLines(rows[i..], nullvalue, sep));
  }

  /** The calls of the callback for a result. */
  method OutputTable(out: OutFile, azCol: seq<Option<string>>, rows: seq<Option<seq<Option<string>>>>,
                     showHeader: bool, nullvalue: string, sep: string)
    modifies out
    ensures out.text == old(out.text) + Heading(azCol, rows, showHeader, sep) + CsvLines(rows, nullvalue, sep)
  {
    ghost var all := out.text + Heading(azCol, rows, showHeader, sep) + CsvLines(rows, nullvalue, sep);
    var i := 0;
    assert rows[0..] == rows;
    while i < |rows|
      invariant 0 <= i <= |rows|
      invariant out.text + (if i == 0 then Heading(azCol, rows, showHeader, sep) else "")
                + CsvLines(rows[i..], nullvalue, sep) == all
    {
      OutputNext(out, azCol, rows, i, showHeader, nullvalue, sep);
      assert out.text + "" == out.text;
      i := i + 1;
    }
    assert CsvLines(rows[i..], nullvalue, sep) == "" && out.text + "" == out.text;
    assert i == 0 ==> Heading(azCol, rows, showHeader, sep) == "";
  }

  // ---------- Reading a line ----------

  /** The quote state after a text. */
  function ToggleAll(s: string, inQuote: bool): bool {
    if s == "" then inQuote else Toggle(s[|s| - 1], ToggleAll(s[..|s| - 1], inQuote))
  }

  lemma {:induction false} ToggleAllHead(s: string, inQuote: bool)
    requires s != ""
    ensures ToggleAll(s, inQuote) == ToggleAll(s[1..], Toggle(s[0], inQuote))
    decreases |s|
  {
    if |s| > 1 {
      var t := s[..|s| - 1];
      ToggleAllHead(t, inQuote);
      assert s[1..][..|s| - 2] == t[1..];
    }
  }

  /** How a chunk with at most a final newline moves the search for the line end. */
  lemma {:induction false} ChunkRead(chunk: string, rest: string, inQuote: bool, csvFlag: bool)
    requires chunk != "" && forall i | 0 <= i < |chunk| - 1 :: chunk[i] != NEWLINE
    ensures var q := ToggleAll(chunk, inQuote);
            LineEnd(chunk + rest, inQuote, csvFlag) ==
              if chunk[|chunk| - 1] == NEWLINE && (!q || !csvFlag) then |chunk| - 1
              else |chunk| + LineEnd(rest, q, csvFlag)
    decreases |chunk|
  {
    ToggleAllHead(chunk, inQuote);
    assert (chunk + rest)[1..] == chunk[1..] + rest;
    if |chunk| > 1 {
      ChunkRead(chunk[1..], rest, Toggle(chunk[0], inQuote), csvFlag);
    } else {
      assert chunk[1..] + rest == rest;
    }
  }

  /** The loop that counts the quotes of what fgets has read; it stops at a NUL. */
  method ScanQuotes(chunk: string, before: bool) returns (inQuote: bool, k: nat)
    ensures k <= |chunk| && NulFree(chunk[..k]) && (k < |chunk| ==> chunk[k] == NUL)
    ensures inQuote == ToggleAll(chunk[..k], before)
  {
    inQuote, k := before, 0;
    while k < |chunk| && chunk[k] != NUL
      invariant k <= |chunk| && NulFree(chunk[..k]) && inQuote == ToggleAll(chunk[..k], before)
    {
      if chunk[k] == QUOTE { inQuote := !inQuote; }
      assert chunk[..k + 1][..k] == chunk[..k];
      k := k + 1;
    }
  }

  /** What has been read so far ends no line. */
  predicate Reading(all: string, zLine: string, rest: string, inQuote: bool, csvFlag: bool) {
    && zLine + rest == all
    && LineEnd(all, false, csvFlag) == |zLine| + LineEnd(rest, inQuote, csvFlag)
  }

  lemma ReadOn(all: string, zLine: string, chunk: string, rest: string, inQuote: bool, csvFlag: bool)
    requires Reading(all, zLine, chunk + rest, inQuote, csvFlag) && chunk != ""
    requires forall i | 0 <= i < |chunk| - 1 :: chunk[i] != NEWLINE
    ensures var q, n := ToggleAll(chunk, inQuote), |zLine + chunk| - 1;
            if (zLine + chunk)[n] == NEWLINE && (!q || !csvFlag)
            then all != "" && GetLine(all, csvFlag) == Line(StripReturn((zLine + chunk)[..n]), rest)
            else Reading(all, zLine + chunk, rest, q, csvFlag)
  {
    ChunkRead(chunk, rest, inQuote, csvFlag);
    var n := |zLine + chunk| - 1;
    assert zLine + (chunk + rest) == zLine + chunk + rest;
    assert all[..n] == (zLine + chunk)[..n] && all[n + 1..] == rest;
  }

  /** The same for texts that may have a NUL in them, about which nothing is said. */
  predicate ReadingOn(all: string, zLine: string, rest: string, inQuote: bool, csvFlag: bool) {
    NulFree(all) ==> NulFree(rest) && Reading(all, zLine, rest, inQuote, csvFlag)
  }

  predicate Result(all: string, csvFlag: bool, found: bool, zLine: string, rest: string) {
    NulFree(all) ==>
      match GetLine(all, csvFlag)
      case EndOfFile => !found && rest == ""
      case Line(line, more) => found && zLine == line && rest == more
  }

  /** A chunk, of which the k characters before a NUL are kept, has been read. */
  lemma ReadChunk(all: string, zLine: string, chunk: string, k: nat, rest: string, inQuote: bool, csvFlag: bool)
    requires ReadingOn(all, zLine, chunk + rest, inQuote, csvFlag) && chunk != ""
    requires forall i | 0 <= i < |chunk| - 1 :: chunk[i] != NEWLINE
    requires k <= |chunk| && (k < |chunk| ==> chunk[k] == NUL)
    ensures var q, z := ToggleAll(chunk[..k], inQuote), zLine + chunk[..k];
            if z != "" && z[|z| - 1] == NEWLINE && (!q || !csvFlag)
            then Result(all, csvFlag, true, StripReturn(z[..|z| - 1]), rest)
            else ReadingOn(all, z, rest, q, csvFlag)
  {
    if NulFree(all) {
      assert forall i | 0 <= i < |chunk| :: chunk[i] == (chunk + rest)[i];
      assert forall i | 0 <= i < |rest| :: rest[i] == (chunk + rest)[|chunk| + i];
      assert k == |chunk| && chunk[..k] == chunk;
      ReadOn(all, zLine, chunk, rest, inQuote, csvFlag);
    }
  }

  /** Cut off the newline, and a return before it. */
  method CutNewline(zLine: string) returns (line: string)
    requires zLine != ""
    ensures line == StripReturn(zLine[..|zLine| - 1])
    ensures |line| < |zLine| && (NulFree(zLine) ==> NulFree(line))
  {
    var n := |zLine| - 1;
    if n > 0 && zLine[n - 1] == RETURN { n := n - 1; }
    line := zLine[..n];
  }

  /** The text ends before the line does. */
  lemma ReadAll(all: string, zLine: string, inQuote: bool, csvFlag: bool)
    requires ReadingOn(all, zLine, "", inQuote, csvFlag)
    ensures Result(all, csvFlag, |zLine| != 0, zLine, "")
  {
    assert zLine + "" == zLine;
  }

  /** What is kept of a chunk is put behind the line read so far. */
  method KeepChunk(zLine: string, chunk: string, ghost all: string, ghost rest: string, before: bool, csvFlag: bool)
    returns (inQuote: bool, z: string)
    requires NulFree(zLine) && ReadingOn(all, zLine, chunk + rest, before, csvFlag) && chunk != ""
    requires forall i | 0 <= i < |chunk| - 1 :: chunk[i] != NEWLINE
    ensures NulFree(z) && |z| <= |zLine| + |chunk|
    ensures if z != "" && z[|z| - 1] == NEWLINE && (!inQuote || !csvFlag)
            then Result(all, csvFlag, true, StripReturn(z[..|z| - 1]), rest)
            else ReadingOn(all, z, rest, inQuote, csvFlag)
  {
    var k: nat;
    inQuote, k := ScanQuotes(chunk, before);
    ReadChunk(all, zLine, chunk, k, rest, before, csvFlag);
    z := zLine + chunk[..k];
  }

  /** One turn of the loop of local_getline, with room for at least one character.  stop tells that the line is
      complete; found is false for a null result. */
  method ReadMore(file: InFile, zLine: string, nLine: nat, inQuote: bool, csvFlag: bool, ghost all: string)
    returns (stop: bool, found: bool, z: string, inQuote': bool)
    requires |zLine| + 2 <= nLine && NulFree(zLine) && ReadingOn(all, zLine, file.text, inQuote, csvFlag)
    modifies file
    ensures |z| < nLine && NulFree(z)
    ensures stop ==> Result(all, csvFlag, found, z, file.text)
    ensures !stop ==> |file.text| < |old(file.text)| && ReadingOn(all, z, file.text, inQuote', csvFlag)
  {
    var n := |zLine|;
    var chunk := file.Fgets(nLine - n);
    if chunk == "" {
      ReadAll(all, zLine, inQuote, csvFlag);
      return true, n != 0, zLine, inQuote;
    }
    inQuote', z := KeepChunk(zLine, chunk, all, file.text, inQuote, csvFlag);
    n := |z|;
    if n > 0 && z[n - 1] == NEWLINE && (!inQuote' || !csvFlag) {
      z := CutNewline(z);
      return true, true, z, inQuote';
    }
    return false, false, z, inQuote';
  }

  /** local_getline.  nLine follows the size of the growing buffer.  Of a chunk with a NUL in it only what stands
      before the NUL is kept, as in the source. */
  method LocalGetline(file: InFile, csvFlag: bool) returns (found: bool, zLine: string)
    modifies file
    ensures NulFree(zLine) && Result(old(file.text), csvFlag, found, zLine, file.text)
  {
    var inQuote := false;
    var nLine := 100;
    var stop := false;
    zLine := "";
    assert zLine + file.text == file.text;
    while true
      invariant 100 <= nLine && |zLine| < nLine && NulFree(zLine)
      invariant ReadingOn(old(file.text), zLine, file.text, inQuote, csvFlag)
      decreases |file.text|
    {
      if |zLine| + 100 > nLine {
        nLine := nLine * 2 + 100;
      }
      stop, found, zLine, inQuote := ReadMore(file, zLine, nLine, inQuote, csvFlag, old(file.text));
      if stop { return; }
    }
  }

  // ---------- Cutting a line into columns, in place ----------

  /** The closed pieces stand in the buffer, one behind the other, all before `start`. */
  predicate Closed(buf: seq<char>, cols: seq<nat>, nCol: nat, done: seq<string>, start: nat)
    requires |cols| >= nCol
  {
    && (|done| < nCol ==> cols[|done|] == start)
    && (forall j | 0 <= j < |done| && j < nCol :: HasString(buf, cols[j], done[j]) && cols[j] + |done[j]| < start)
    && (forall i, j | 0 <= i < j < |done| && j < nCol :: cols[i] + |done[i]| < cols[j])
  }

  /** The state of the cutting loop at position z: `done` are the pieces closed so far, and the
      current piece started at `start`. */
  predicate Cutting(line: string, buf: seq<char>, cols: seq<nat>, sep: string, nCol: nat,
                    done: seq<string>, start: nat, z: nat, inQuote: bool)
  {
    && sep != "" && |buf| == |line| + 1 && |cols| >= nCol > 0
    && start <= z <= |line|
    && Split(line, sep, false, nCol - 1)
       == done + Onto(line[start..z], Split(line[z..], sep, inQuote, nCol - 1 - |done|))
    && buf[start..] == line[start..] + [NUL]
    && Closed(buf, cols, nCol, done, start)
  }

  /** From `start` on the buffer still is the line. */
  lemma Untouched(line: string, buf: seq<char>, start: nat, z: nat)
    requires |buf| == |line| + 1 && start <= z <= |line| && buf[start..] == line[start..] + [NUL]
    ensures buf[z] == (if z < |line| then line[z] else NUL)
    ensures forall k | z <= k < |buf| :: buf[k] == (line + [NUL])[k]
  {
    assert forall k | start <= k < |buf| :: buf[k] == buf[start..][k - start];
  }

  lemma CutStart(line: string, buf: seq<char>, cols: seq<nat>, sep: string, nCol: nat)
    requires sep != "" && |buf| == |line| + 1 && buf == line + [NUL] && |cols| >= nCol > 0 && cols[0] == 0
    ensures Cutting(line, buf, cols, sep, nCol, [], 0, 0, false)
  {
    var whole := Split(line, sep, false, nCol - 1);
    assert line[0..] == line && buf[0..] == buf && line[0..0] == "";
    assert [] + Onto("", whole) == whole by { assert "" + whole[0] == whole[0]; }
  }

  /** The loop passes a character that is not the start of a separator. */
  lemma CutPass(line: string, buf: seq<char>, cols: seq<nat>, sep: string, nCol: nat,
                done: seq<string>, start: nat, z: nat, inQuote: bool)
    requires sep != "" && Cutting(line, buf, cols, sep, nCol, done, start, z, inQuote) && z < |line|
    requires Toggle(line[z], inQuote) || !(sep <= line[z..])
    ensures Cutting(line, buf, cols, sep, nCol, done, start, z + 1, Toggle(line[z], inQuote))
  {
    var s := line[z..];
    assert s[0] == line[z] && s[1..] == line[z + 1..];
    var more := Split(s[1..], sep, Toggle(line[z], inQuote), nCol - 1 - |done|);
    assert Split(s, sep, inQuote, nCol - 1 - |done|) == [[line[z]] + more[0]] + more[1..];
    assert line[start..z] + ([line[z]] + more[0]) == line[start..z + 1] + more[0];
  }

  /** The loop overwrites the start of a separator and opens the next column, if there is room. */
  lemma CutAt(line: string, buf: seq<char>, cols: seq<nat>, buf': seq<char>, cols': seq<nat>, sep: string, nCol: nat,
              done: seq<string>, start: nat, z: nat, inQuote: bool, next: nat)
    requires sep != "" && Cutting(line, buf, cols, sep, nCol, done, start, z, inQuote) && z < |line|
    requires !Toggle(line[z], inQuote) && sep <= line[z..]
    requires next == if |done| + 1 < nCol then z + |sep| else z + 1
    requires buf' == buf[z := NUL]
    requires cols' == if |done| + 1 < nCol then cols[|done| + 1 := next] else cols
    ensures Cutting(line, buf', cols', sep, nCol, done + [line[start..z]], next, next, Toggle(line[z], inQuote))
  {
    CutPieces(line, sep, nCol, done, start, z, inQuote, next);
    CutBuffer(line, buf, cols, buf', cols', nCol, done, start, z, next);
  }

  /** The part of that step that concerns the pieces. */
  lemma CutPieces(line: string, sep: string, nCol: nat, done: seq<string>, start: nat, z: nat, inQuote: bool, next: nat)
    requires sep != "" && start <= z < |line| && !Toggle(line[z], inQuote) && sep <= line[z..]
    requires next == if |done| + 1 < nCol then z + |sep| else z + 1
    requires Split(line, sep, false, nCol - 1)
             == done + Onto(line[start..z], Split(line[z..], sep, inQuote, nCol - 1 - |done|))
    ensures var done' := done + [line[start..z]];
            Split(line, sep, false, nCol - 1)
            == done' + Onto(line[next..next],
                            Split(line[next..], sep, Toggle(line[z], inQuote), nCol - 1 - |done'|))
  {
    var s, left, q := line[z..], nCol - 1 - |done|, Toggle(line[z], inQuote);
    assert s[0] == line[z];
    var tail := if left > 0 then s[|sep|..] else s[1..];
    assert tail == line[next..];
    var more := Split(tail, sep, q, left - 1);
    assert Split(s, sep, inQuote, left) == [""] + more;
    assert line[next..next] == "";
    OntoCut(done, line[start..z], more);
  }

  lemma OntoCut(done: seq<string>, u: string, more: seq<string>)
    requires more != []
    ensures done + Onto(u, [""] + more) == done + [u] + Onto("", more)
  {
    assert u + "" == u && "" + more[0] == more[0];
    assert Onto(u, [""] + more) == [u] + Onto("", more);
  }

  /** The part of that step that concerns the buffer. */
  lemma CutBuffer(line: string, buf: seq<char>, cols: seq<nat>, buf': seq<char>, cols': seq<nat>, nCol: nat,
                  done: seq<string>, start: nat, z: nat, next: nat)
    requires |buf| == |line| + 1 && start <= z < next <= |line| && |cols| >= nCol > 0
    requires buf[start..] == line[start..] + [NUL] && buf' == buf[z := NUL]
    requires Closed(buf, cols, nCol, done, start)
    requires cols' == if |done| + 1 < nCol then cols[|done| + 1 := next] else cols
    ensures buf'[next..] == line[next..] + [NUL]
    ensures Closed(buf', cols', nCol, done + [line[start..z]], next)
  {
    StringClosed(line, buf, start, z);
    RestKept(line, buf, start, z, next);
    forall j | 0 <= j < |done| && j < nCol ensures HasString(buf', cols[j], done[j]) {
      StringKept(buf, cols[j], done[j], z);
    }
    ClosedOn(buf, cols, buf', cols', nCol, done, line[start..z], start, next);
  }

  /** One more piece is closed. */
  lemma ClosedOn(buf: seq<char>, cols: seq<nat>, buf': seq<char>, cols': seq<nat>, nCol: nat,
                 done: seq<string>, piece: string, start: nat, next: nat)
    requires |cols| >= nCol && Closed(buf, cols, nCol, done, start)
    requires forall j | 0 <= j < |done| && j < nCol :: HasString(buf', cols[j], done[j])
    requires HasString(buf', start, piece) && start + |piece| < next
    requires cols' == if |done| + 1 < nCol then cols[|done| + 1 := next] else cols
    ensures Closed(buf', cols', nCol, done + [piece], next)
  {
    var done' := done + [piece];
    forall j | 0 <= j < |done'| && j < nCol
      ensures cols'[j] == cols[j] && HasString(buf', cols'[j], done'[j]) && cols'[j] + |done'[j]| < next
    {
      if j < |done| { assert done'[j] == done[j] && HasString(buf, cols[j], done[j]); }
    }
    forall i, j | 0 <= i < j < |done'| && j < nCol ensures cols'[i] + |done'[i]| < cols'[j] {
      assert done'[i] == done[i] && HasString(buf, cols[i], done[i]);
    }
  }

  /** A string before the NUL that is written stays. */
  lemma StringKept(buf: seq<char>, k: nat, p: string, z: nat)
    requires HasString(buf, k, p) && k + |p| < z < |buf|
    ensures HasString(buf[z := NUL], k, p)
  {
    assert buf[z := NUL][k..k + |p|] == buf[k..k + |p|];
  }

  /** The NUL closes the current piece, */
  lemma StringClosed(line: string, buf: seq<char>, start: nat, z: nat)
    requires |buf| == |line| + 1 && start <= z < |line| && buf[start..] == line[start..] + [NUL]
    ensures HasString(buf[z := NUL], start, line[start..z])
  {
    Untouched(line, buf, start, start);
    assert buf[z := NUL][start..z] == line[start..z];
  }

  /** and behind it the buffer still is the line. */
  lemma RestKept(line: string, buf: seq<char>, start: nat, z: nat, next: nat)
    requires |buf| == |line| + 1 && start <= z < next <= |line| && buf[start..] == line[start..] + [NUL]
    ensures buf[z := NUL][next..] == line[next..] + [NUL]
  {
    Untouched(line, buf, start, start);
  }

  /** The end of the loop: the last piece has its terminator already. */
  lemma CutEnd(line: string, buf: seq<char>, cols: seq<nat>, sep: string, nCol: nat,
               done: seq<string>, start: nat, inQuote: bool)
    requires Cutting(line, buf, cols, sep, nCol, done, start, |line|, inQuote)
    ensures var pieces := Split(line, sep, false, nCol - 1);
            && |pieces| == |done| + 1
            && (|pieces| == nCol && |cols| > nCol ==> Standing(buf, cols, pieces, 0))
  {
    var last := line[start..];
    assert line[|line|..] == "" && line[start..|line|] == last && last + "" == last;
    assert Split(line, sep, false, nCol - 1) == done + [last];
    if |done| + 1 == nCol < |cols| {
      LastStands(line, buf, start);
      AllStand(buf, cols, done, last, start);
    }
  }

  lemma LastStands(line: string, buf: seq<char>, start: nat)
    requires start <= |line| && |buf| == |line| + 1 && buf[start..] == line[start..] + [NUL]
    ensures HasString(buf, start, line[start..])
  {
    var last := line[start..];
    assert buf[start..][..|last|] == last && buf[start..][|last|] == NUL;
    assert buf[start..start + |last|] == buf[start..][..|last|];
  }

  lemma AllStand(buf: seq<char>, cols: seq<nat>, done: seq<string>, last: string, start: nat)
    requires |cols| > |done| + 1 && Closed(buf, cols, |done| + 1, done, start) && HasString(buf, start, last)
    ensures Standing(buf, cols, done + [last], 0)
  {
  }

  /** strncmp with the separator. */
  method SeparatorAt(buf: array<char>, z: nat, sep: string, ghost line: string, ghost start: nat)
    returns (here: bool)
    requires buf.Length == |line| + 1 && start <= z <= |line| && buf[start..] == line[start..] + [NUL] && NulFree(sep)
    ensures here <==> sep <= line[z..]
  {
    Untouched(line, buf[..], start, z);
    PrefixInBuffer(line, buf[..], sep, z);
    here := |sep| <= buf.Length - z && buf[z..z + |sep|] == sep;
  }

  /** At a separator outside quotes write a NUL over its start and record where the next column starts. */
  method CutHere(buf: array<char>, azCol: array<nat>, sep: string, nCol: nat, i: nat, z: nat)
    returns (i': nat, z': nat)
    requires sep != "" && azCol.Length > nCol && z < buf.Length
    modifies buf, azCol
    ensures i' == i + 1 && z' + 1 == if i' < nCol then z + |sep| else z + 1
    ensures buf[..] == old(buf[..])[z := NUL]
    ensures azCol[..] == if i' < nCol then old(azCol[..])[i' := z' + 1] else old(azCol[..])
  {
    buf[z] := NUL;
    i', z' := i + 1, z;
    if i' < nCol {
      azCol[i'] := z + |sep|;
      z' := z + |sep| - 1;
    }
  }

  /** The body of the loop over the line: toggle the quote state and look for a separator. */
  method CutStep(buf: array<char>, azCol: array<nat>, sep: string, nCol: nat, i: nat, z: nat, inQuote: bool,
                 ghost line: string, ghost done: seq<string>, ghost start: nat)
    returns (i': nat, z': nat, inQuote': bool, ghost done': seq<string>, ghost start': nat)
    requires sep != "" && azCol.Length > nCol && NulFree(line) && NulFree(sep) && z < |line| && i == |done|
    requires Cutting(line, buf[..], azCol[..], sep, nCol, done, start, z, inQuote)
    modifies buf, azCol
    ensures z < z' <= |line| && i' == |done'|
    ensures Cutting(line, buf[..], azCol[..], sep, nCol, done', start', z', inQuote')
  {
    ghost var wasBuf, wasCol := buf[..], azCol[..];
    var here: bool;
    inQuote', here := LookAt(buf, z, sep, inQuote, line, start);
    if inQuote' || !here {
      CutPass(line, wasBuf, wasCol, sep, nCol, done, start, z, inQuote);
      return i, z + 1, inQuote', done, start;
    }
    i', z' := CutHere(buf, azCol, sep, nCol, i, z);
    z' := z' + 1;
    CutAt(line, wasBuf, wasCol, buf[..], azCol[..], sep, nCol, done, start, z, inQuote, z');
    done', start' := done + [line[start..z]], z';
  }

  /** The quote state behind a character, and whether a separator stands there. */
  method LookAt(buf: array<char>, z: nat, sep: string, inQuote: bool, ghost line: string, ghost start: nat)
    returns (inQuote': bool, here: bool)
    requires buf.Length == |line| + 1 && start <= z < |line| && buf[start..] == line[start..] + [NUL] && NulFree(sep)
    ensures inQuote' == Toggle(line[z], inQuote) && (here <==> sep <= line[z..])
  {
    Untouched(line, buf[..], start, z);
    inQuote' := if buf[z] == QUOTE then !inQuote else inQuote;
    here := SeparatorAt(buf, z, sep, line, start);
  }

  /** The loop over the line.  found is the number of columns in the line. */
  method CutLine(buf: array<char>, azCol: array<nat>, sep: string, nCol: nat, ghost line: string)
    returns (found: nat)
    requires sep != "" && nCol > 0 && azCol.Length == nCol + 1
    requires NulFree(line) && NulFree(sep) && buf[..] == line + [NUL]
    modifies buf, azCol
    ensures var pieces := Split(line, sep, false, nCol - 1);
            && found == |pieces|
            && (found == nCol ==> Standing(buf[..], azCol[..], pieces, 0))
  {
    var inQuote, i: nat, z: nat := false, 0, 0;
    azCol[0] := 0;
    ghost var done: seq<string>, start: nat := [], 0;
    CutStart(line, buf[..], azCol[..], sep, nCol);
    while buf[z] != NUL
      invariant buf.Length == |line| + 1 && z <= |line| && i == |done|
      invariant Cutting(line, buf[..], azCol[..], sep, nCol, done, start, z, inQuote)
      decreases |line| - z
    {
      Untouched(line, buf[..], start, z);
      i, z, inQuote, done, start := CutStep(buf, azCol, sep, nCol, i, z, inQuote, line, done, start);
    }
    Untouched(line, buf[..], start, z);
    CutEnd(line, buf[..], azCol[..], sep, nCol, done, start, inQuote);
    found := i + 1;
  }

  /** strncmp on the buffer is a prefix test on the line: the NUL at its end matches nothing. */
  lemma PrefixInBuffer(line: string, buf: seq<char>, sep: string, z: nat)
    requires |buf| == |line| + 1 && z <= |line| && NulFree(sep)
    requires forall k | z <= k < |buf| :: buf[k] == (line + [NUL])[k]
    ensures |sep| <= |buf| - z && buf[z..z + |sep|] == sep <==> sep <= line[z..]
  {
    if |sep| <= |line| - z {
      assert buf[z..z + |sep|] == line[z..][..|sep|];
    } else if |sep| == |buf| - z {
      assert buf[z..z + |sep|][|sep| - 1] == NUL;
      assert sep[|sep| - 1] in sep;
    }
  }

  // ---------- Dequoting a column, in place ----------

  lemma UnquotedStep(t: string)
    requires t != ""
    ensures Unquoted(t) == if t[0] == QUOTE then (if |t| == 1 then "" else [t[1]] + Unquoted(t[2..]))
                           else [t[0]] + Unquoted(t[1..])
  {
  }

  /** Columns other than the one at `at` keep their strings. */
  lemma OtherStrings(before: seq<char>, after: seq<char>, at: nat, n: nat, k: nat, p: string)
    requires |after| == |before| && HasString(before, k, p) && (k + |p| < at || at + n < k)
    requires forall i | 0 <= i < |before| && !(at <= i <= at + n) :: after[i] == before[i]
    ensures HasString(after, k, p)
  {
    assert after[k..k + |p|] == before[k..k + |p|];
  }

  /** Where the dequoting loop stands: k characters are written, j have been read. */
  predicate Dequoting(was: seq<char>, now: seq<char>, at: nat, p: string, j: nat, k: nat) {
    && HasString(was, at, p) && p != "" && |now| == |was|
    && 1 <= j <= |p| && k < j
    && now[at..at + k] + Unquoted(p[j..]) == Unquoted(p[1..])
    && now[at + j..at + |p|] == p[j..] && now[at + |p|] == NUL
    && (forall i | 0 <= i < |was| && !(at <= i <= at + |p|) :: now[i] == was[i])
  }

  /** One character is copied from position c of the column to position k. */
  lemma DequoteCopy(was: seq<char>, now: seq<char>, now': seq<char>, at: nat, p: string, j: nat, c: nat, k: nat)
    requires Dequoting(was, now, at, p, j, k) && j <= c < |p|
    requires if p[j] == QUOTE then c == j + 1 else c == j
    requires now' == now[at + k := now[at + c]]
    ensures Dequoting(was, now', at, p, c + 1, k + 1)
  {
    BufferAt(now, at, p, j, c);
    CopiedChar(p, j, c);
    var u := Unquoted(p[c + 1..]);
    assert now'[at..at + (k + 1)] == now[at..at + k] + [p[c]];
    assert now[at..at + k] + ([p[c]] + u) == now[at..at + k] + [p[c]] + u;
    assert now'[at + (c + 1)..at + |p|] == now[at + j..at + |p|][c + 1 - j..];
    assert p[j..][c + 1 - j..] == p[c + 1..];
  }

  /** What is left to be dequoted begins with the character that is copied. */
  lemma CopiedChar(p: string, j: nat, c: nat)
    requires j <= c < |p| && if p[j] == QUOTE then c == j + 1 else c == j
    ensures Unquoted(p[j..]) == [p[c]] + Unquoted(p[c + 1..])
  {
    UnquotedStep(p[j..]);
    assert p[j..][1..] == p[j + 1..];
    if c == j + 1 { assert p[j..][2..] == p[c + 1..]; }
  }

  /** One turn of the dequoting loop; stop tells that a last quote stands just before the terminator. */
  method DequoteOne(buf: array<char>, at: nat, j: nat, k: nat, ghost was: seq<char>, ghost p: string)
    returns (j': nat, k': nat, stop: bool)
    requires Dequoting(was, buf[..], at, p, j, k) && buf[at + j] != NUL
    modifies buf
    ensures stop ==> j' == j + 1 && k' == k && at + j' < buf.Length && buf[at + j'] == NUL && buf[at + j] == QUOTE
                     && Dequoting(was, buf[..], at, p, j, k)
    ensures !stop ==> j' > j && Dequoting(was, buf[..], at, p, j', k')
  {
    ghost var now := buf[..];
    j', k', stop := j, k, false;
    BufferAt(now, at, p, j, j);
    if buf[at + j'] == QUOTE {
      j' := j' + 1;
      BufferAt(now, at, p, j, j');
      if buf[at + j'] == NUL { return j', k', true; }
    }
    buf[at + k'] := buf[at + j'];
    DequoteCopy(was, now, buf[..], at, p, j, j', k);
    k' := k' + 1;
    j' := j' + 1;
  }

  /** The dequoting of one column of `.import`. */
  method DequoteColumn(buf: array<char>, at: nat, ghost p: string)
    requires HasString(buf[..], at, p) && NulFree(p)
    modifies buf
    ensures HasString(buf[..], at, Dequote(p))
    ensures forall i | 0 <= i < buf.Length && !(at <= i <= at + |p|) :: buf[i] == old(buf[i])
  {
    ghost var was := buf[..];
    BufferAt(was, at, p, 0, 0);
    if buf[at] == QUOTE {
      DequoteRest(buf, at, was, p);
    }
  }

  /** The loop behind an opening quote. */
  method DequoteRest(buf: array<char>, at: nat, ghost was: seq<char>, ghost p: string)
    requires HasString(buf[..], at, p) && NulFree(p) && p != "" && p[0] == QUOTE && was == buf[..]
    modifies buf
    ensures HasString(buf[..], at, Dequote(p))
    ensures forall i | 0 <= i < buf.Length && !(at <= i <= at + |p|) :: buf[i] == was[i]
  {
    var j: nat, k: nat, stop := 1, 0, false;
    DequoteStart(was, at, p);
    while buf[at + j] != NUL
      invariant Dequoting(was, buf[..], at, p, j, k)
      decreases |p| - j
    {
      j, k, stop := DequoteOne(buf, at, j, k, was, p);
      if stop { break; }
    }
    ghost var now := buf[..];
    DequoteEnd(was, now, at, p, j, k);
    buf[at + k] := NUL;
    DequoteClosed(was, now, buf[..], at, p, k);
  }

  lemma DequoteStart(was: seq<char>, at: nat, p: string)
    requires HasString(was, at, p) && p != ""
    ensures Dequoting(was, was, at, p, 1, 0)
  {
    assert was[at..at + |p|][1..] == was[at + 1..at + |p|];
    assert was[at..at + 0] + Unquoted(p[1..]) == Unquoted(p[1..]);
  }

  /** The terminator is written behind the dequoted text. */
  lemma DequoteClosed(was: seq<char>, now: seq<char>, now': seq<char>, at: nat, p: string, k: nat)
    requires HasString(was, at, p) && |now| == |was| && at + k < |now| && p != "" && p[0] == QUOTE && k < |p|
    requires now[at..at + k] == Unquoted(p[1..]) && now' == now[at + k := NUL]
    requires forall i | 0 <= i < |was| && !(at <= i <= at + |p|) :: now[i] == was[i]
    ensures HasString(now', at, Dequote(p))
    ensures forall i | 0 <= i < |was| && !(at <= i <= at + |p|) :: now'[i] == was[i]
  {
    assert now'[at..at + k] == now[at..at + k];
  }

  /** The loop ends at the terminator, or with a last quote just before it. */
  lemma DequoteEnd(was: seq<char>, now: seq<char>, at: nat, p: string, j: nat, k: nat)
    requires NulFree(p) && at + j < |now| && now[at + j] == NUL
    requires Dequoting(was, now, at, p, j, k)
             || (j > 1 && Dequoting(was, now, at, p, j - 1, k) && now[at + j - 1] == QUOTE)
    ensures at + k < |now| == |was| && p != "" && k < |p| && now[at..at + k] == Unquoted(p[1..])
    ensures forall i | 0 <= i < |was| && !(at <= i <= at + |p|) :: now[i] == was[i]
  {
    if Dequoting(was, now, at, p, j, k) {
      BufferAt(now, at, p, j, j);
      assert p[j..] == "";
    } else {
      BufferAt(now, at, p, j - 1, j - 1);
      BufferAt(now, at, p, j - 1, j);
      assert p[j - 1..] == [QUOTE];
      UnquotedStep(p[j - 1..]);
    }
  }

  /** Where the buffer still holds the end of a column, its characters are those of the column. */
  lemma BufferAt(now: seq<char>, at: nat, p: string, j: nat, i: nat)
    requires j <= i <= |p| && at + |p| < |now|
    requires now[at + j..at + |p|] == p[j..] && now[at + |p|] == NUL
    ensures now[at + i] == if i < |p| then p[i] else NUL
  {
    if i < |p| {
      assert now[at + j..at + |p|][i - j] == p[j..][i - j];
    }
  }

  /** The C string at position k. */
  method ReadString(buf: array<char>, k: nat, ghost p: string) returns (s: string)
    requires HasString(buf[..], k, p) && NulFree(p)
    ensures s == p
  {
    s := "";
    while buf[k + |s|] != NUL
      invariant |s| <= |p| && s == p[..|s|]
      decreases |p| - |s|
    {
      BufferAt(buf[..], k, p, 0, |s|);
      s := s + [buf[k + |s|]];
    }
    BufferAt(buf[..], k, p, 0, |s|);
  }

  predicate AllNulFree(pieces: seq<string>) {
    forall i | 0 <= i < |pieces| :: NulFree(pieces[i])
  }

  lemma {:induction false} SplitNulFree(s: string, sep: string, inQuote: bool, left: int)
    requires sep != "" && NulFree(s)
    ensures AllNulFree(Split(s, sep, inQuote, left))
    decreases |s|
  {
    if s != "" {
      var q := Toggle(s[0], inQuote);
      if !q && sep <= s {
        SplitNulFree(if left > 0 then s[|sep|..] else s[1..], sep, q, left - 1);
      } else {
        SplitNulFree(s[1..], sep, q, left);
        assert s[0] in s;
      }
    }
  }

  /** From column i on, the pieces stand in the buffer, one behind the other. */
  predicate Standing(buf: seq<char>, cols: seq<nat>, pieces: seq<string>, i: nat) {
    && |cols| > |pieces|
    && (forall j | i <= j < |pieces| :: HasString(buf, cols[j], pieces[j]))
    && (forall j, k | 0 <= j < k < |pieces| :: cols[j] + |pieces[j]| < cols[k])
  }

  lemma StandingOn(before: seq<char>, after: seq<char>, cols: seq<nat>, pieces: seq<string>, i: nat)
    requires i < |pieces| && Standing(before, cols, pieces, i) && |after| == |before|
    requires forall k | 0 <= k < |before| && !(cols[i] <= k <= cols[i] + |pieces[i]|) :: after[k] == before[k]
    ensures Standing(after, cols, pieces, i + 1)
  {
    forall j | i + 1 <= j < |pieces| ensures HasString(after, cols[j], pieces[j]) {
      OtherStrings(before, after, cols[i], |pieces[i]|, cols[j], pieces[j]);
    }
  }

  /** Dequote one column and read it. */
  method BindColumn(buf: array<char>, azCol: array<nat>, i: nat, ghost pieces: seq<string>)
    returns (value: string)
    requires i < |pieces| && Standing(buf[..], azCol[..], pieces, i) && NulFree(pieces[i])
    modifies buf
    ensures value == Dequote(pieces[i]) && Standing(buf[..], azCol[..], pieces, i + 1)
  {
    ghost var before, cols := buf[..], azCol[..];
    assert HasString(before, cols[i], pieces[i]);
    DequoteColumn(buf, azCol[i], pieces[i]);
    DequoteNulFree(pieces[i]);
    value := ReadString(buf, azCol[i], Dequote(pieces[i]));
    StandingOn(before, buf[..], cols, pieces, i);
  }

  /** Dequote all columns of a line and bind them. */
  method BindColumns(buf: array<char>, azCol: array<nat>, nCol: nat, ghost pieces: seq<string>)
    returns (row: seq<string>)
    requires nCol == |pieces| && AllNulFree(pieces) && Standing(buf[..], azCol[..], pieces, 0)
    modifies buf
    ensures row == DequoteAll(pieces)
  {
    row := [];
    var i := 0;
    while i < nCol
      invariant 0 <= i <= nCol && |row| == i
      invariant forall j | 0 <= j < i :: row[j] == Dequote(pieces[j])
      invariant Standing(buf[..], azCol[..], pieces, i)
    {
      var value := BindColumn(buf, azCol, i, pieces);
      row := row + [value];
      i := i + 1;
    }
  }

  lemma DequoteNulFree(p: string)
    requires NulFree(p)
    ensures NulFree(Dequote(p))
  {
    if p != "" { UnquotedNulFree(p[1..]); }
  }

  lemma {:induction false} UnquotedNulFree(t: string)
    requires NulFree(t)
    ensures NulFree(Unquoted(t))
    decreases |t|
  {
    if t != "" {
      UnquotedStep(t);
      if t[0] != QUOTE {
        UnquotedNulFree(t[1..]);
      } else if |t| > 1 {
        UnquotedNulFree(t[2..]);
      }
    }
  }

  lemma GetLineNulFree(s: string)
    requires NulFree(s)
    ensures GetLine(s, true).Line? ==> NulFree(GetLine(s, true).line) && NulFree(GetLine(s, true).rest)
  {
  }

  /** What one line contributes to an import. */
  lemma ImportStep(s: string, sep: string, nCol: nat, accepts: Accepts, stored: seq<seq<string>>)
    requires sep != ""
    ensures GetLine(s, true).EndOfFile? ==> ImportInto(s, sep, nCol, accepts, stored) == Rows([])
    ensures GetLine(s, true).Line? ==>
              var pieces, rest := PiecesOf(s, sep, nCol), GetLine(s, true).rest;
              ImportInto(s, sep, nCol, accepts, stored) ==
                if |pieces| != nCol then WrongColumns([], |pieces|)
                else if !accepts(stored, DequoteAll(pieces)) then Rejected([])
                else After([DequoteAll(pieces)], ImportInto(rest, sep, nCol, accepts, stored + [DequoteAll(pieces)]))
  {
  }

  /** The pieces of the first line. */
  function PiecesOf(s: string, sep: string, nCol: nat): seq<string>
    requires sep != "" && GetLine(s, true).Line?
  {
    Split(GetLine(s, true).line, sep, false, nCol - 1)
  }

  /** Cut a line and bind its columns. */
  method ImportLine(zLine: string, azCol: array<nat>, sep: string, nCol: nat)
    returns (columns: nat, row: seq<string>)
    requires sep != "" && NulFree(sep) && nCol > 0 && NulFree(zLine) && azCol.Length == nCol + 1
    modifies azCol
    ensures var pieces := Split(zLine, sep, false, nCol - 1);
            columns == |pieces| && (columns == nCol ==> row == DequoteAll(pieces))
  {
    row := [];
    var buf := new char[|zLine| + 1](i requires 0 <= i <= |zLine| => if i < |zLine| then zLine[i] else NUL);
    assert buf[..] == zLine + [NUL];
    columns := CutLine(buf, azCol, sep, nCol, zLine);
    if columns == nCol {
      SplitNulFree(zLine, sep, false, nCol - 1);
      row := BindColumns(buf, azCol, nCol, Split(zLine, sep, false, nCol - 1));
    }
  }

  /** What the import of a line leads to: another line, or the end. */
  datatype Progress = More(row: seq<string>) | End(result: ImportResult)

  /** The body of the `.import` loop. */
  method ImportNext(file: InFile, azCol: array<nat>, sep: string, nCol: nat, table: Target) returns (p: Progress)
    requires sep != "" && NulFree(sep) && nCol > 0 && NulFree(file.text) && azCol.Length == nCol + 1
    modifies file, azCol, table
    ensures table.begun == old(table.begun) && NulFree(file.text)
    ensures match p
            case More(row) =>
              && |file.text| < |old(file.text)| && table.rows == old(table.rows) + [row]
              && ImportInto(old(file.text), sep, nCol, table.accepts, old(table.rows))
                 == After([row], ImportInto(file.text, sep, nCol, table.accepts, table.rows))
            case End(result) =>
              && table.rows == old(table.rows)
              && ImportInto(old(file.text), sep, nCol, table.accepts, old(table.rows)) == result
              && Nothing(result)
  {
    GetLineNulFree(file.text);
    ImportStep(file.text, sep, nCol, table.accepts, table.rows);
    var found, zLine := LocalGetline(file, true);
    if !found {
      return End(Rows([]));
    }
    var columns, row := ImportLine(zLine, azCol, sep, nCol);
    if columns != nCol {
      return End(WrongColumns([], columns));
    }
    var ok := table.Insert(row);
    if !ok {
      return End(Rejected([]));
    }
    return More(row);
  }

  /** No row has been bound. */
  predicate Nothing(r: ImportResult) {
    match r
    case Rows(rows) => rows == []
    case WrongColumns(before, _) => before == []
    case Rejected(before) => before == []
  }

  /** `.import`: it stops at the first line whose column count is wrong or whose row is rejected, and then takes
      back all rows inserted before. */
  method ImportFile(file: InFile, sep: string, nCol: nat, table: Target) returns (result: ImportResult)
    requires sep != "" && NulFree(sep) && nCol > 0 && NulFree(file.text)
    modifies file, table
    ensures result == ImportInto(old(file.text), sep, nCol, table.accepts, old(table.rows))
    ensures table.rows == Stored(old(table.rows), result)
  {
    var rows := [];
    ghost var whole, before := ImportInto(file.text, sep, nCol, table.accepts, table.rows), table.rows;
    var azCol := new nat[nCol + 1];
    AfterNone(whole);
    table.Begin();
    while true
      invariant NulFree(file.text) && table.begun == before && table.rows == before + rows
      invariant whole == After(rows, ImportInto(file.text, sep, nCol, table.accepts, table.rows))
      decreases |file.text|
    {
      var p := ImportNext(file, azCol, sep, nCol, table);
      match p {
        case More(row) =>
          AfterOne(rows, row, ImportInto(file.text, sep, nCol, table.accepts, table.rows));
          rows := rows + [row];
        case End(last) =>
          AfterAll(rows, last);
          table.End(last.Rows?);
          return After(rows, last);
      }
    }
  }

  /** The last line adds no row. */
  lemma AfterAll(rows: seq<seq<string>>, last: ImportResult)
    requires Nothing(last)
    ensures last.Rows? ==> After(rows, last) == Rows(rows)
    ensures After(rows, last).Rows? <==> last.Rows?
  {
    assert rows + [] == rows;
  }

  lemma AfterNone(r: ImportResult)
    ensures After([], r) == r
  {
    match r
    case Rows(more) => assert [] + more == more;
    case WrongColumns(before, _) => assert [] + before == before;
    case Rejected(before) => assert [] + before == before;
  }

  lemma AfterOne(rows: seq<seq<string>>, row: seq<string>, r: ImportResult)
    ensures After(rows, After([row], r)) == After(rows + [row], r)
  {
    match r
    case Rows(more) => assert rows + ([row] + more) == rows + [row] + more;
    case WrongColumns(before, _) => assert rows + ([row] + before) == rows + [row] + before;
    case Rejected(before) => assert rows + ([row] + before) == rows + [row] + before;
  }
}
