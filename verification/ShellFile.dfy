/** The streams the shell prints to and reads from. */
module ShellFile {

  class OutFile {
    var text: string

    constructor ()
      ensures text == ""
    {
      text := "";
    }

    method Putc(c: char)
      modifies this
      ensures text == old(text) + [c]
    {
      text := text + [c];
    }

    method Puts(s: string)
      modifies this
      ensures text == old(text) + s
    {
      text := text + s;
    }
  }

  class InFile {
    var text: string          // what has not been read yet

    constructor (text: string)
      ensures this.text == text
    {
      this.text := text;
    }

    /** fgets: up to size-1 characters, but not past a newline; "" stands for a null result. */
    method Fgets(size: nat) returns (chunk: string)
      requires size >= 2
      modifies this
      ensures chunk + text == old(text) && |chunk| < size
      ensures chunk == "" <==> old(text) == ""
      ensures chunk == "" ==> text == ""
      ensures forall i | 0 <= i < |chunk| - 1 :: chunk[i] != '\n'
    {
      var k := 0;
      while k < size - 1 && k < |text| && (k == 0 || text[k - 1] != '\n')
        invariant 0 <= k <= |text| && k <= size - 1
        invariant forall i | 0 <= i < k - 1 :: text[i] != '\n'
      {
        k := k + 1;
      }
      chunk := text[..k];
      text := text[k..];
    }
  }

  /** The table that rows are inserted into; `begun` is what a ROLLBACK goes back to. */
  class Target {
    const accepts: (seq<seq<string>>, seq<string>) -> bool
    var rows: seq<seq<string>>
    var begun: seq<seq<string>>

    constructor (accepts: (seq<seq<string>>, seq<string>) -> bool, rows: seq<seq<string>>)
      ensures this.accepts == accepts && this.rows == rows
    {
      this.accepts, this.rows, this.begun := accepts, rows, rows;
    }

    method Begin()
      modifies this
      ensures rows == old(rows) == begun
    {
      begun := rows;
    }

    /** One run of the INSERT statement. */
    method Insert(row: seq<string>) returns (ok: bool)
      modifies this
      ensures ok == accepts(old(rows), row) && begun == old(begun)
      ensures rows == if ok then old(rows) + [row] else old(rows)
    {
      ok := accepts(rows, row);
      if ok { rows := rows + [row]; }
    }

    /** COMMIT or ROLLBACK. */
    method End(commit: bool)
      modifies this
      ensures rows == if commit then old(rows) else old(begun)
    {
      if !commit { rows := begun; }
    }
  }
}
