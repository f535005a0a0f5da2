/** A table that the shell writes in CSV mode to one stream comes back when `.import` reads it from
    another (sqlcipher/shell.c). */
module CsvFiles {
  import opened CsvFormat
  import opened CsvRoundTrip
  import opened CsvShell
  import opened Quoting
  import opened ShellFile

  predicate RowNulFree(row: seq<string>) {
    forall i | 0 <= i < |row| :: NulFree(row[i])
  }

  lemma {:induction false} FieldsNulFree(row: seq<string>, sep: string)
    requires RowNulFree(row) && NulFree(sep)
    ensures NulFree(CsvFields(row, sep))
  {
    if row != [] {
      DoubledNulFree(row[0], QUOTE);
      FieldsNulFree(row[1..], sep);
    }
  }

  lemma {:induction false} FileNulFree(rows: seq<seq<string>>, sep: string)
    requires NulFree(sep) && forall i | 0 <= i < |rows| :: RowNulFree(rows[i])
    ensures NulFree(CsvFile(rows, sep))
  {
    if rows != [] {
      FieldsNulFree(rows[0], sep);
      FileNulFree(rows[1..], sep);
    }
  }

  /** The whole way there and back: into a table that takes every row, the rows are added. */
  method WriteThenImport(rows: seq<seq<string>>, nCol: nat, sep: string, table: Target) returns (result: ImportResult)
    requires GoodSeparator(sep) && NulFree(sep) && Table(rows, nCol)
    requires forall i | 0 <= i < |rows| :: RowNulFree(rows[i])
    requires forall stored, row :: table.accepts(stored, row)
    modifies table
    ensures result == Rows(rows) && table.rows == old(table.rows) + rows
  {
    var out := new OutFile();
    OutputTable(out, [], AllPresent(rows), false, "", sep);
    PresentLines(rows, "", sep);
    assert out.text == CsvFile(rows, sep);
    FileNulFree(rows, sep);
    var file := new InFile(out.text);
    AllAccepted(out.text, sep, nCol, table.accepts, table.rows);
    TablesSurvive(rows, nCol, sep);
    result := ImportFile(file, sep, nCol, table);
  }
}
