/** The routines of the shell and the library that quote and dequote text, on buffers and pointers. */
module ShellQuoting {
  import opened Quoting
  import opened ShellFile

  /** A buffer that begins with the C string s. */
  predicate CString(buf: seq<char>, s: string) {
    HasString(buf, 0, s) && NulFree(s)
  }

  lemma CharAt(buf: seq<char>, s: string, i: nat)
    requires CString(buf, s) && i <= |s|
    ensures buf[i] == if i < |s| then s[i] else NUL
    ensures buf[i] == NUL <==> i == |s|
  {
    if i < |s| {
      assert buf[..|s|][i] == s[i];
    }
  }

  // ---------- sqlite3Dequote ----------

  /** The loop has read i characters and kept j of them. */
  predicate Undoubling(buf: seq<char>, s: string, q: char, i: nat, j: nat) {
    && 1 <= i <= |s| && j < i && |s| < |buf|
    && buf[..j] + Undoubled(s[i..], q) == Undoubled(s[1..], q)
    && (forall k | i <= k < |s| :: buf[k] == s[k])
    && buf[|s|] == NUL
  }

  lemma UndoubleStep(buf: seq<char>, buf': seq<char>, s: string, q: char, i: nat, j: nat)
    requires Undoubling(buf, s, q, i, j) && i < |s|
    requires buf' == buf[j := s[i]]
    ensures s[i] != q ==> Undoubling(buf', s, q, i + 1, j + 1)
    ensures s[i] == q && i + 1 < |s| && s[i + 1] == q ==> Undoubling(buf', s, q, i + 2, j + 1)
  {
    assert s[i..][1..] == s[i + 1..];
    assert i + 1 < |s| ==> s[i..][1] == s[i + 1] && s[i..][2..] == s[i + 2..];
    assert buf'[..j + 1] == buf[..j] + [s[i]];
    assert forall t: string :: buf[..j] + ([s[i]] + t) == buf'[..j + 1] + t;
  }

  /** One turn of the loop; stop tells that the closing quote has been reached. */
  method UndoubleOne(z: array<char>, quote: char, i: nat, j: nat, ghost s: string)
    returns (i': nat, j': nat, stop: bool)
    requires Undoubling(z[..], s, quote, i, j) && i < |s| && NulFree(s)
    modifies z
    ensures stop ==> i' == i && j' == j && Closes(s, i, quote)
    ensures !stop ==> i' > i
    ensures Undoubling(z[..], s, quote, i', j')
    ensures forall k | |s| < k < z.Length :: z[k] == old(z[k])
  {
    UndoubleStep(z[..], z[..][j := s[i]], s, quote, i, j);
    if z[i] == quote {
      if z[i + 1] == quote {
        z[j] := quote;
        return i + 2, j + 1, false;
      }
      return i, j, true;
    }
    z[j] := z[i];
    return i + 1, j + 1, false;
  }

  /** Character i is a quote that no other follows. */
  predicate Closes(s: string, i: nat, q: char) {
    i < |s| && s[i] == q && (i + 1 < |s| ==> s[i + 1] != q)
  }

  /** The loop ends at the terminator or at the closing quote. */
  lemma UndoubleEnd(buf: seq<char>, s: string, q: char, i: nat, j: nat)
    requires Undoubling(buf, s, q, i, j) && (i == |s| || Closes(s, i, q))
    ensures buf[..j] == Undoubled(s[1..], q)
  {
    assert s[i..] == "" || s[i..][0] == s[i];
    assert i + 1 < |s| ==> s[i..][1] == s[i + 1];
    assert Undoubled(s[i..], q) == "" && buf[..j] + "" == buf[..j];
  }

  /** sqlite3Dequote: the string in the buffer is replaced by the dequoted one. */
  method Dequote(z: array<char>, ghost s: string) returns (n: int)
    requires CString(z[..], s)
    modifies z
    ensures CString(z[..], Dequoted(s))
    ensures n == if s != "" && Opens(s[0]) then |Dequoted(s)| else -1
    ensures forall k | |s| < k < z.Length :: z[k] == old(z[k])
  {
    ghost var was := z[..];
    CharAt(was, s, 0);
    var quote := z[0];
    if !Opens(quote) { return -1; }
    quote := Closing(quote);
    var i: nat, j: nat := 1, 0;
    assert z[..0] + Undoubled(s[1..], quote) == Undoubled(s[1..], quote);
    forall k | 1 <= k < |s| ensures was[k] == s[k] { CharAt(was, s, k); }
    while z[i] != NUL
      invariant Undoubling(z[..], s, quote, i, j)
      invariant forall k | |s| < k < z.Length :: z[k] == was[k]
      decreases |s| - i
    {
      var stop: bool;
      i, j, stop := UndoubleOne(z, quote, i, j, s);
      if stop { break; }
    }
    UndoubleEnd(z[..], s, quote, i, j);
    DequotedNulFree(s);
    assert z[..j] == Undoubled(s[1..], quote);
    z[j] := NUL;
    assert z[0..j] == Dequoted(s);
    n := j;
  }

  lemma {:induction false} UndoubledNulFree(s: string, q: char)
    requires NulFree(s)
    ensures NulFree(Undoubled(s, q))
    decreases |s|
  {
    if s == "" {
    } else if s[0] != q {
      UndoubledNulFree(s[1..], q);
    } else if |s| > 1 && s[1] == q {
      UndoubledNulFree(s[2..], q);
    }
  }

  lemma DequotedNulFree(s: string)
    requires NulFree(s)
    ensures NulFree(Dequoted(s))
  {
    if s != "" { UndoubledNulFree(s[1..], Closing(s[0])); }
  }

  // ---------- The quoted case of sqlite3GetToken ----------

  lemma CloseStep(s: string, q: char, i: nat)
    requires 1 <= i <= |s|
    ensures i < |s| && s[i] != q ==> CloseAt(s[i..], q) == 1 + CloseAt(s[i + 1..], q)
    ensures i + 1 < |s| && s[i] == s[i + 1] == q ==> CloseAt(s[i..], q) == 2 + CloseAt(s[i + 2..], q)
    ensures i < |s| && s[i] == q && (i + 1 < |s| ==> s[i + 1] != q) ==> CloseAt(s[i..], q) == 0
    ensures i == |s| ==> CloseAt(s[i..], q) == 0
  {
    if i < |s| {
      assert s[i..][1..] == s[i + 1..];
      assert i + 1 < |s| ==> s[i..][1] == s[i + 1] && s[i..][2..] == s[i + 2..];
    }
  }

  datatype QuotedKind = TkString | TkId | TkIllegal

  /** The token that begins with a quote, with its length. */
  method GetQuotedToken(z: array<char>, ghost s: string) returns (kind: QuotedKind, n: nat)
    requires CString(z[..], s) && s != "" && s[0] in {'\'', '"', '`'}
    ensures n == QuotedTokenLen(s)
    ensures kind == if CloseAt(s[1..], s[0]) == |s| - 1 then TkIllegal else if s[0] == '\'' then TkString else TkId
  {
    CharAt(z[..], s, 0);
    var delim := z[0];
    var i := 1;
    CharAt(z[..], s, 1);
    while z[i] != NUL
      invariant 1 <= i <= |s| && CloseAt(s[1..], delim) == i - 1 + CloseAt(s[i..], delim)
      decreases |s| - i
    {
      CharAt(z[..], s, i);
      CharAt(z[..], s, i + 1);
      CloseStep(s, delim, i);
      if z[i] == delim {
        if z[i + 1] == delim {
          i := i + 1;
        } else {
          break;
        }
      }
      i := i + 1;
    }
    CharAt(z[..], s, i);
    CloseStep(s, delim, i);
    if z[i] == '\'' {
      return TkString, i + 1;
    } else if z[i] != NUL {
      return TkId, i + 1;
    } else {
      return TkIllegal, i;
    }
  }

  // ---------- appendText ----------

  function Count(s: string, q: char): nat {
    if s == "" then 0 else (if s[0] == q then 1 else 0) + Count(s[1..], q)
  }

  /** Doubling grows a text by its number of quotes. */
  lemma {:induction false} DoubledLength(s: string, q: char)
    ensures |Doubled(s, q)| == |s| + Count(s, q)
  {
    if s != "" { DoubledLength(s[1..], q); }
  }

  /** The text appendText adds: plain, or between quotes. */
  function Added(s: string, quote: char): string {
    if quote == NUL then s else Quoted(s, quote)
  }

  /** appendText.  z is empty for a null first argument; the new buffer has no byte to spare. */
  method AppendText(z: string, s: string, quote: char) returns (buf: array<char>)
    requires NulFree(z) && NulFree(s)
    ensures fresh(buf) && CString(buf[..], z + Added(s, quote))
    ensures buf.Length == |z + Added(s, quote)| + 1
  {
    var nIn, nAppend := |z|, |s|;
    var len := nAppend + nIn + 1;
    DoubledLength(s, quote);
    if quote != NUL {
      len := len + 2;
      var i := 0;
      assert s[0..] == s;
      while i < nAppend
        invariant 0 <= i <= nAppend && len + Count(s[i..], quote) == nAppend + nIn + 3 + Count(s, quote)
      {
        assert s[i..][0] == s[i] && s[i..][1..] == s[i + 1..];
        if s[i] == quote { len := len + 1; }
        i := i + 1;
      }
      DoubledNulFree(s, quote);
    }
    buf := new char[len](i requires 0 <= i => if i < |z| then z[i] else NUL);
    assert buf[..nIn] == z;
    if quote != NUL {
      FillQuoted(buf, nIn, s, quote);
      assert buf[..len - 1] == buf[..nIn] + buf[nIn..len - 1] == z + Quoted(s, quote);
    } else {
      forall i | 0 <= i < nAppend { buf[nIn + i] := s[i]; }
      buf[len - 1] := NUL;
      assert buf[..len - 1] == z + s;
    }
  }

  /** The filling loop has written up to zCsr; what is left of the doubled text fits exactly. */
  predicate Filling(buf: seq<char>, nIn: nat, zCsr: nat, s: string, quote: char, i: nat) {
    && i <= |s| && nIn + 1 <= zCsr && zCsr + |Doubled(s[i..], quote)| == |buf| - 2
    && buf[nIn..zCsr] + Doubled(s[i..], quote) == [quote] + Doubled(s, quote)
  }

  /** A quote needs room for two characters. */
  lemma DoubledRoom(s: string, quote: char, i: nat)
    requires i < |s|
    ensures |Doubled(s[i..], quote)| >= if s[i] == quote then 2 else 1
  {
    assert s[i..][0] == s[i];
  }

  lemma FillStep(buf: seq<char>, buf': seq<char>, nIn: nat, zCsr: nat, s: string, quote: char, i: nat)
    requires Filling(buf, nIn, zCsr, s, quote, i) && i < |s| && |buf'| == |buf|
    requires zCsr + 2 <= |buf| && buf'[..zCsr] == buf[..zCsr] && buf'[zCsr] == s[i]
    requires s[i] == quote ==> buf'[zCsr + 1] == quote
    ensures Filling(buf', nIn, if s[i] == quote then zCsr + 2 else zCsr + 1, s, quote, i + 1)
  {
    var was, more := buf[nIn..zCsr], Doubled(s[i + 1..], quote);
    var next := if s[i] == quote then [quote, quote] else [s[i]];
    assert s[i..][0] == s[i] && s[i..][1..] == s[i + 1..];
    assert Doubled(s[i..], quote) == next + more;
    assert buf'[nIn..zCsr] == buf'[..zCsr][nIn..] == was;
    assert buf'[nIn..zCsr + |next|] == was + next;
    assert was + (next + more) == (was + next) + more;
  }

  /** The body of the loop of appendText that copies the text. */
  method FillOne(buf: array<char>, ghost nIn: nat, z: nat, s: string, quote: char, i: nat) returns (zCsr: nat)
    requires i < |s| && Filling(buf[..], nIn, z, s, quote, i)
    modifies buf
    ensures Filling(buf[..], nIn, zCsr, s, quote, i + 1) && buf[..nIn] == old(buf[..nIn])
  {
    DoubledRoom(s, quote, i);
    zCsr := z;
    buf[zCsr] := s[i];
    zCsr := zCsr + 1;
    if s[i] == quote {
      buf[zCsr] := quote;
      zCsr := zCsr + 1;
    }
    FillStep(old(buf[..]), buf[..], nIn, z, s, quote, i);
  }

  /** The loop of appendText that fills the rest of the buffer; its last assert is the first ensures. */
  method FillQuoted(buf: array<char>, nIn: nat, s: string, quote: char)
    requires buf.Length == nIn + |Quoted(s, quote)| + 1
    modifies buf
    ensures buf[..nIn] == old(buf[..nIn])
    ensures buf[nIn..buf.Length - 1] == Quoted(s, quote) && buf[buf.Length - 1] == NUL
  {
    var zCsr := nIn;
    buf[zCsr] := quote;
    zCsr := zCsr + 1;
    assert buf[nIn..zCsr] == [quote];
    var i: nat := 0;
    assert s[0..] == s;
    while i < |s|
      invariant Filling(buf[..], nIn, zCsr, s, quote, i)
      invariant buf[..nIn] == old(buf[..nIn])
    {
      zCsr := FillOne(buf, nIn, zCsr, s, quote, i);
      i := i + 1;
    }
    FillEnd(buf[..], nIn, zCsr, s, quote, i);
    buf[zCsr] := quote;
    zCsr := zCsr + 1;
    assert buf[nIn..zCsr] == [quote] + Doubled(s, quote) + [quote];
    buf[zCsr] := NUL;
    zCsr := zCsr + 1;
    assert zCsr == buf.Length;
  }

  lemma FillEnd(buf: seq<char>, nIn: nat, zCsr: nat, s: string, quote: char, i: nat)
    requires Filling(buf, nIn, zCsr, s, quote, i) && i == |s|
    ensures zCsr == |buf| - 2 && buf[nIn..zCsr] == [quote] + Doubled(s, quote)
  {
    assert s[i..] == "" && Doubled(s[i..], quote) == "";
    assert buf[nIn..zCsr] + "" == buf[nIn..zCsr];
  }

  // ---------- output_quoted_string ----------

  /** A run without quotes is its own doubled form. */
  lemma {:induction false} DoubledRun(s: string, q: char, i: nat)
    requires i <= |s| && forall k | 0 <= k < i :: s[k] != q
    ensures Doubled(s, q) == s[..i] + Doubled(s[i..], q)
    decreases i
  {
    if i > 0 {
      DoubledRun(s[1..], q, i - 1);
      assert s[1..][i - 1..] == s[i..] && s[..i] == [s[0]] + s[1..][..i - 1];
    } else {
      assert s[i..] == s;
    }
  }

  /** How much of s lies before the first q. */
  predicate Run(s: string, q: char, i: nat) {
    i <= |s| && (forall k | 0 <= k < i :: s[k] != q) && (i < |s| ==> s[i] == q)
  }

  /** What one turn of the printing loop prints, and what it leaves. */
  function Turn(s: string, q: char, i: nat): (string, string)
    requires s != "" && i <= |s|
  {
    if i < |s| then (s[..i] + [q, q], s[i + 1..]) else (s, "")
  }

  lemma TurnPrints(was: string, s: string, q: char, i: nat)
    requires s != "" && Run(s, q, i)
    ensures was + Turn(s, q, i).0 + Doubled(Turn(s, q, i).1, q) == was + Doubled(s, q)
  {
    DoubledRun(s, q, i);
    if i < |s| {
      assert s[i..][1..] == s[i + 1..] && s[i..][0] == q;
      var rest := Doubled(s[i + 1..], q);
      assert Doubled(s, q) == s[..i] + ([q, q] + rest);
    }
  }

  /** output_quoted_string prints the SQL literal in runs between the quotes. */
  method OutputQuotedString(out: OutFile, text: string)
    modifies out
    ensures out.text == old(out.text) + Quoted(text, '\'')
  {
    var nSingle, i := 0, 0;
    while i < |text|
      invariant 0 <= i <= |text| && nSingle >= 0
      invariant nSingle == 0 <==> forall k | 0 <= k < i :: text[k] != '\''
    {
      if text[i] == '\'' { nSingle := nSingle + 1; }
      i := i + 1;
    }
    out.Puts("'");
    if nSingle == 0 {
      DoubledRun(text, '\'', |text|);
      assert text[..|text|] == text && text[|text|..] == "";
      out.Puts(text);
    } else {
      PrintRuns(out, text);
    }
    ghost var body := out.text;
    out.Puts("'");
    assert out.text == body + "'";
  }

  method PrintRuns(out: OutFile, text: string)
    modifies out
    ensures out.text == old(out.text) + Doubled(text, '\'')
  {
    var z := text;
    while z != ""
      invariant out.text + Doubled(z, '\'') == old(out.text) + Doubled(text, '\'')
      decreases |z|
    {
      var i := 0;
      while i < |z| && z[i] != '\''
        invariant 0 <= i <= |z| && forall k | 0 <= k < i :: z[k] != '\''
      {
        i := i + 1;
      }
      TurnPrints(out.text, z, '\'', i);
      if i == 0 {
        out.Puts("''");
        z := z[1..];
      } else if i < |z| {
        out.Puts(z[..i] + "''");
        z := z[i + 1..];
      } else {
        out.Puts(z);
        z := "";
      }
    }
    assert out.text + "" == out.text;
  }
}
