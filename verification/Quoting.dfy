/** Text between quote characters in which a quote is doubled: how the shell and the ALTER TABLE
    functions print it (sqlcipher/shell.c, sqlcipher/src/alter.c) and how the library reads it back
    (sqlcipher/src/tokenize.c, sqlcipher/src/util.c). */
module Quoting {

  const NUL := '\0'

  predicate NulFree(s: string) {
    forall i | 0 <= i < |s| :: s[i] != NUL
  }

  /** At position k of the buffer there is a C string with contents p. */
  predicate HasString(buf: seq<char>, k: nat, p: string) {
    k + |p| < |buf| && buf[k..k + |p|] == p && buf[k + |p|] == NUL
  }

  // ---------- Printing ----------

  /** s with every q doubled. */
  function Doubled(s: string, q: char): string {
    if s == "" then ""
    else (if s[0] == q then [q, q] else [s[0]]) + Doubled(s[1..], q)
  }

  lemma {:induction false} DoubledNulFree(s: string, q: char)
    requires NulFree(s) && q != NUL
    ensures NulFree(Doubled(s, q))
  {
    if s != "" { DoubledNulFree(s[1..], q); }
  }

  function Quoted(s: string, q: char): string {
    [q] + Doubled(s, q) + [q]
  }

  // ---------- Reading ----------

  /** Where, behind an opening q, the closing one stands; |s| when there is none. */
  function CloseAt(s: string, q: char): (k: nat)
    ensures k <= |s|
    ensures k < |s| ==> s[k] == q
    decreases |s|
  {
    if s == "" then 0
    else if s[0] != q then 1 + CloseAt(s[1..], q)
    else if |s| > 1 && s[1] == q then 2 + CloseAt(s[2..], q)
    else 0
  }

  /** The characters up to the closing q, with doubled q's taken as one. */
  function Undoubled(s: string, q: char): (r: string)
    ensures |r| <= |s|
    decreases |s|
  {
    if s == "" then ""
    else if s[0] != q then [s[0]] + Undoubled(s[1..], q)
    else if |s| > 1 && s[1] == q then [q] + Undoubled(s[2..], q)
    else ""
  }

  predicate Opens(c: char) {
    c == '\'' || c == '"' || c == '`' || c == '['
  }

  function Closing(c: char): char {
    if c == '[' then ']' else c
  }

  /** sqlite3Dequote as a function of the string. */
  function Dequoted(s: string): string {
    if s != "" && Opens(s[0]) then Undoubled(s[1..], Closing(s[0])) else s
  }

  // ---------- Reading undoes printing ----------

  predicate StartsWith(s: string, q: char) {
    s != "" && s[0] == q
  }

  lemma DoubledHead(s: string, q: char, rest: string)
    requires s != ""
    ensures var tail := Doubled(s[1..], q) + [q] + rest;
            Doubled(s, q) + [q] + rest == (if s[0] == q then [q, q] else [s[0]]) + tail
  {
  }

  lemma {:induction false} DoubledCloses(s: string, q: char, rest: string)
    requires !StartsWith(rest, q)
    ensures CloseAt(Doubled(s, q) + [q] + rest, q) == |Doubled(s, q)|
    decreases |s|
  {
    if s == "" {
      assert Doubled(s, q) + [q] + rest == [q] + rest;
    } else {
      var tail := Doubled(s[1..], q) + [q] + rest;
      DoubledHead(s, q, rest);
      DoubledCloses(s[1..], q, rest);
      assert ([q, q] + tail)[2..] == tail && ([s[0]] + tail)[1..] == tail;
    }
  }

  lemma {:induction false} DoubledReadsBack(s: string, q: char, rest: string)
    requires !StartsWith(rest, q)
    ensures Undoubled(Doubled(s, q) + [q] + rest, q) == s
    decreases |s|
  {
    if s == "" {
      assert Doubled(s, q) + [q] + rest == [q] + rest;
    } else {
      var tail := Doubled(s[1..], q) + [q] + rest;
      DoubledHead(s, q, rest);
      DoubledReadsBack(s[1..], q, rest);
      assert ([q, q] + tail)[2..] == tail && ([s[0]] + tail)[1..] == tail;
      assert s == [s[0]] + s[1..];
    }
  }

  /** A closing quote that is followed by another quote does not close. */
  lemma {:induction false} DoubledReadsOn(s: string, q: char, rest: string)
    requires StartsWith(rest, q)
    ensures CloseAt(Doubled(s, q) + [q] + rest, q) > |Doubled(s, q)|
    decreases |s|
  {
    if s == "" {
      assert Doubled(s, q) + [q] + rest == [q] + rest;
    } else {
      var tail := Doubled(s[1..], q) + [q] + rest;
      DoubledHead(s, q, rest);
      DoubledReadsOn(s[1..], q, rest);
      assert ([q, q] + tail)[2..] == tail && ([s[0]] + tail)[1..] == tail;
    }
  }

  lemma QuotedSplits(s: string, q: char, rest: string)
    ensures (Quoted(s, q) + rest)[1..] == Doubled(s, q) + [q] + rest
  {
  }

  /** Dequoting a quoted text returns the text. */
  lemma DequoteQuoted(s: string, q: char)
    requires Opens(q) && q != '['
    ensures Dequoted(Quoted(s, q)) == s
  {
    QuotedSplits(s, q, "");
    assert Quoted(s, q) + "" == Quoted(s, q);
    DoubledReadsBack(s, q, "");
  }

  /** The length of the token that begins with a quote: up to and with the closing one. */
  function QuotedTokenLen(z: string): (n: nat)
    requires z != ""
    ensures 1 <= n <= |z|
  {
    var k := CloseAt(z[1..], z[0]);
    if k < |z| - 1 then k + 2 else |z|
  }

  /** The tokenizer cuts a quoted text off exactly, unless another quote follows it at once. */
  lemma QuotedIsOneTokenIff(s: string, q: char, rest: string)
    ensures QuotedTokenLen(Quoted(s, q) + rest) == |Quoted(s, q)| <==> !StartsWith(rest, q)
  {
    QuotedSplits(s, q, rest);
    if StartsWith(rest, q) {
      DoubledReadsOn(s, q, rest);
    } else {
      DoubledCloses(s, q, rest);
    }
  }

  /** A table name that the dump quotes as an identifier, and then as a string, comes out of two
      dequotings. */
  lemma NestedQuotingUndone(name: string)
    ensures Dequoted(Dequoted(Quoted(Quoted(name, '"'), '\''))) == name
  {
    DequoteQuoted(Quoted(name, '"'), '\'');
    DequoteQuoted(name, '"');
  }
}
