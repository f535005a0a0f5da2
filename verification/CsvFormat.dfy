/** The CSV output format and the `.import` input format of the shell (sqlcipher/shell.c). */
module CsvFormat {
  import opened Names
  import opened Quoting

  const QUOTE := '"'
  const NEWLINE := '\n'
  const RETURN := '\r'

  // ---------- Writing ----------

  /** The characters marked in needCsvQuote. */
  predicate Special(c: char) {
    c <= ' ' || c == '"' || c == '\'' || c as int >= 127
  }

  /** Character i of field z makes output_csv quote the field.  For a longer separator memcmp looks
      at the start of the field, not at position i. */
  predicate Triggers(z: string, sep: string, i: nat)
    requires i < |z|
  {
    Special(z[i]) || (|sep| > 0 && z[i] == sep[0] && (|sep| == 1 || sep <= z))
  }

  predicate NeedsQuote(z: string, sep: string) {
    z == "" || exists i :: 0 <= i < |z| && Triggers(z, sep, i)
  }

  /** A field as output_csv prints it. */
  function CsvField(z: string, sep: string): string {
    if NeedsQuote(z, sep) then [QUOTE] + Doubled(z, QUOTE) + [QUOTE] else z
  }

  function CsvFields(row: seq<string>, sep: string): string {
    if row == [] then ""
    else CsvField(row[0], sep) + (if |row| == 1 then "" else sep) + CsvFields(row[1..], sep)
  }

  function CsvRow(row: seq<string>, sep: string): string {
    CsvFields(row, sep) + [NEWLINE]
  }

  function CsvFile(rows: seq<seq<string>>, sep: string): string {
    if rows == [] then "" else CsvRow(rows[0], sep) + CsvFile(rows[1..], sep)
  }

  // ---------- Writing NULL fields ----------

  /** A field as output_csv prints it when it may be NULL: the null value is never quoted. */
  function CsvCell(z: Option<string>, nullvalue: string, sep: string): string {
    match z
    case None => nullvalue
    case Some(text) => CsvField(text, sep)
  }

  function CsvCells(row: seq<Option<string>>, nullvalue: string, sep: string): string {
    if row == [] then ""
    else CsvCell(row[0], nullvalue, sep) + (if |row| == 1 then "" else sep) + CsvCells(row[1..], nullvalue, sep)
  }

  /** What one call of the row callback prints; without a row, nothing. */
  function CsvLine(azArg: Option<seq<Option<string>>>, nullvalue: string, sep: string): string {
    match azArg
    case None => ""
    case Some(row) => CsvCells(row, nullvalue, sep) + [NEWLINE]
  }

  function CsvLines(rows: seq<Option<seq<Option<string>>>>, nullvalue: string, sep: string): string {
    if rows == [] then "" else CsvLine(rows[0], nullvalue, sep) + CsvLines(rows[1..], nullvalue, sep)
  }

  /** The names of the columns; one without a name is empty. */
  function ColumnNames(azCol: seq<Option<string>>): (r: seq<string>)
    ensures |r| == |azCol|
  {
    seq(|azCol|, i requires 0 <= i < |azCol| => if azCol[i].None? then "" else azCol[i].value)
  }

  /** Fields none of which is NULL. */
  function Present(row: seq<string>): (r: seq<Option<string>>)
    ensures |r| == |row|
  {
    seq(|row|, i requires 0 <= i < |row| => Some(row[i]))
  }

  function AllPresent(rows: seq<seq<string>>): (r: seq<Option<seq<Option<string>>>>)
    ensures |r| == |rows|
  {
    seq(|rows|, i requires 0 <= i < |rows| => Some(Present(rows[i])))
  }

  lemma {:induction false} PresentCells(row: seq<string>, nullvalue: string, sep: string)
    ensures CsvCells(Present(row), nullvalue, sep) == CsvFields(row, sep)
  {
    if row != [] {
      PresentCells(row[1..], nullvalue, sep);
      assert Present(row)[1..] == Present(row[1..]);
    }
  }

  /** Without NULL fields the null value does not matter. */
  lemma {:induction false} PresentLines(rows: seq<seq<string>>, nullvalue: string, sep: string)
    ensures CsvLines(AllPresent(rows), nullvalue, sep) == CsvFile(rows, sep)
  {
    if rows != [] {
      var lines := AllPresent(rows);
      PresentCells(rows[0], nullvalue, sep);
      assert lines[0] == Some(Present(rows[0])) && CsvLine(lines[0], nullvalue, sep) == CsvRow(rows[0], sep);
      PresentLines(rows[1..], nullvalue, sep);
      assert lines[1..] == AllPresent(rows[1..]);
    }
  }

  // ---------- Reading ----------

  function Toggle(c: char, inQuote: bool): bool {
    if c == QUOTE then !inQuote else inQuote
  }

  /** The position of the newline that ends the first line, or |s| when the text ends first.  With
      csvFlag a newline inside quotes does not count. */
  function LineEnd(s: string, inQuote: bool, csvFlag: bool): (k: nat)
    ensures k <= |s|
  {
    if s == "" then 0
    else
      var q := Toggle(s[0], inQuote);
      if s[0] == NEWLINE && (!q || !csvFlag) then 0 else 1 + LineEnd(s[1..], q, csvFlag)
  }

  function StripReturn(line: string): string {
    if |line| > 0 && line[|line| - 1] == RETURN then line[..|line| - 1] else line
  }

  datatype LineResult = EndOfFile | Line(line: string, rest: string)

  /** local_getline: the first line and what is left of the text. */
  function GetLine(s: string, csvFlag: bool): (r: LineResult)
    ensures r.Line? ==> |r.rest| < |s|
  {
    if s == "" then EndOfFile
    else
      var k := LineEnd(s, false, csvFlag);
      if k == |s| then Line(s, "") else Line(StripReturn(s[..k]), s[k + 1..])
  }

  /** The pieces into which `.import` cuts a line.  left is the number of further columns there is
      room for; beyond it only the first character of a separator is skipped. */
  function Split(s: string, sep: string, inQuote: bool, left: int): (pieces: seq<string>)
    requires sep != ""
    ensures |pieces| >= 1
    decreases |s|
  {
    if s == "" then [""]
    else
      var q := Toggle(s[0], inQuote);
      if !q && sep <= s then
        [""] + Split(if left > 0 then s[|sep|..] else s[1..], sep, q, left - 1)
      else
        var more := Split(s[1..], sep, q, left);
        [[s[0]] + more[0]] + more[1..]
  }

  /** Prepend text to the first piece. */
  function Onto(u: string, pieces: seq<string>): seq<string>
    requires pieces != []
  {
    [u + pieces[0]] + pieces[1..]
  }

  /** The rest of a quoted piece: a quote drops out and the character behind it is taken as it is. */
  function Unquoted(t: string): string {
    if t == "" then ""
    else if t[0] == QUOTE then (if |t| == 1 then "" else [t[1]] + Unquoted(t[2..]))
    else [t[0]] + Unquoted(t[1..])
  }

  function Dequote(piece: string): string {
    if piece != "" && piece[0] == QUOTE then Unquoted(piece[1..]) else piece
  }

  function DequoteAll(pieces: seq<string>): (r: seq<string>)
    ensures |r| == |pieces|
  {
    seq(|pieces|, i requires 0 <= i < |pieces| => Dequote(pieces[i]))
  }

  datatype ImportResult =
    | Rows(rows: seq<seq<string>>)
    | WrongColumns(before: seq<seq<string>>, found: nat)
    | Rejected(before: seq<seq<string>>)

  /** `.import`: the rows bound, or the rows before the first line with a wrong column count. */
  function Import(s: string, sep: string, nCol: nat): ImportResult
    requires sep != ""
    decreases |s|
  {
    match GetLine(s, true)
    case EndOfFile => Rows([])
    case Line(line, rest) =>
      var pieces := Split(line, sep, false, nCol - 1);
      if |pieces| != nCol then WrongColumns([], |pieces|)
      else
        match Import(rest, sep, nCol)
        case Rows(rows) => Rows([DequoteAll(pieces)] + rows)
        case WrongColumns(before, found) => WrongColumns([DequoteAll(pieces)] + before, found)
        case Rejected(before) => Rejected([DequoteAll(pieces)] + before)
  }

  /** Which rows a table takes, when it already holds others. */
  type Accepts = (seq<seq<string>>, seq<string>) -> bool

  /** The same into a table that holds the rows `stored` and may reject a row. */
  function ImportInto(s: string, sep: string, nCol: nat, accepts: Accepts, stored: seq<seq<string>>): ImportResult
    requires sep != ""
    decreases |s|
  {
    match GetLine(s, true)
    case EndOfFile => Rows([])
    case Line(line, rest) =>
      var pieces := Split(line, sep, false, nCol - 1);
      if |pieces| != nCol then WrongColumns([], |pieces|)
      else
        var row := DequoteAll(pieces);
        if !accepts(stored, row) then Rejected([])
        else After([row], ImportInto(rest, sep, nCol, accepts, stored + [row]))
  }

  /** The result of an import behind rows already bound. */
  function After(rows: seq<seq<string>>, r: ImportResult): ImportResult {
    match r
    case Rows(more) => Rows(rows + more)
    case WrongColumns(before, found) => WrongColumns(rows + before, found)
    case Rejected(before) => Rejected(rows + before)
  }

  /** A table that takes every row does not matter. */
  lemma {:induction false} AllAccepted(s: string, sep: string, nCol: nat, accepts: Accepts, stored: seq<seq<string>>)
    requires sep != "" && forall rows, row :: accepts(rows, row)
    ensures ImportInto(s, sep, nCol, accepts, stored) == Import(s, sep, nCol)
    decreases |s|
  {
    match GetLine(s, true)
    case EndOfFile =>
    case Line(line, rest) =>
      var pieces := Split(line, sep, false, nCol - 1);
      if |pieces| == nCol {
        var row := DequoteAll(pieces);
        AllAccepted(rest, sep, nCol, accepts, stored + [row]);
        RowImported(s, sep, nCol, row, Import(rest, sep, nCol));
        RowAccepted(s, sep, nCol, accepts, stored, row, Import(rest, sep, nCol));
      }
  }

  lemma RowAccepted(s: string, sep: string, nCol: nat, accepts: Accepts, stored: seq<seq<string>>, row: seq<string>,
                    more: ImportResult)
    requires sep != "" && GetLine(s, true).Line? && accepts(stored, row)
    requires var pieces := Split(GetLine(s, true).line, sep, false, nCol - 1);
             |pieces| == nCol && row == DequoteAll(pieces)
    requires more == ImportInto(GetLine(s, true).rest, sep, nCol, accepts, stored + [row])
    ensures ImportInto(s, sep, nCol, accepts, stored) == After([row], more)
  {
  }

  lemma RowImported(s: string, sep: string, nCol: nat, row: seq<string>, more: ImportResult)
    requires sep != "" && GetLine(s, true).Line?
    requires var pieces := Split(GetLine(s, true).line, sep, false, nCol - 1);
             |pieces| == nCol && row == DequoteAll(pieces)
    requires more == Import(GetLine(s, true).rest, sep, nCol)
    ensures Import(s, sep, nCol) == After([row], more)
  {
  }

  /** What an import leaves in the table: everything, or nothing of it. */
  function Stored(before: seq<seq<string>>, r: ImportResult): seq<seq<string>> {
    if r.Rows? then before + r.rows else before
  }

  // ---------- Which separators work ----------

  function Quotes(s: string): nat {
    if s == "" then 0 else Quotes(s[..|s| - 1]) + (if s[|s| - 1] == QUOTE then 1 else 0)
  }

  /** Every newline of s lies behind an odd number of quotes. */
  predicate NewlinesQuoted(s: string) {
    forall k | 0 <= k < |s| && s[k] == NEWLINE :: Quotes(s[..k]) % 2 == 1
  }

  /** The separators for which the round trip works. */
  predicate GoodSeparator(sep: string) {
    && sep != ""
    && sep[0] != QUOTE
    && Quotes(sep) % 2 == 0
    && NewlinesQuoted(sep)
    && (|sep| == 1 || exists k :: 0 <= k < |sep| && Special(sep[k]))
  }

  predicate Table(rows: seq<seq<string>>, nCol: nat) {
    nCol > 0 && forall i | 0 <= i < |rows| :: |rows[i]| == nCol
  }

  predicate SurvivesRoundTrip(rows: seq<seq<string>>, nCol: nat, sep: string)
    requires sep != ""
  {
    Import(CsvFile(rows, sep), sep, nCol) == Rows(rows)
  }
}
