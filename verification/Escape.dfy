/** The C-string escaper of the shell, its in-place inverse, and the argument reader of the dot
    commands that stands between the two (sqlcipher/shell.c). */
module Escape {

  type byte = x: int | 0 <= x < 256

  const BACKSLASH: byte := '\\' as int
  const DOUBLE: byte := '"' as int
  const LOWER_T: byte := 't' as int
  const LOWER_N: byte := 'n' as int
  const LOWER_R: byte := 'r' as int
  const ZERO: byte := '0' as int
  const TAB: byte := 9
  const LF: byte := 10
  const CR: byte := 13

  predicate NulFree(s: seq<byte>) {
    forall i | 0 <= i < |s| :: s[i] != 0
  }

  /** isprint in the C locale. */
  predicate Printable(c: byte) {
    32 <= c < 127
  }

  predicate Octal(c: byte) {
    ZERO <= c <= ZERO + 7
  }

  // ---------- Printing ----------

  /** One byte as output_c_string prints it. */
  function Printed(c: byte): (r: seq<byte>)
    ensures 1 <= |r| <= 4
  {
    if c == BACKSLASH then [BACKSLASH, BACKSLASH]
    else if c == DOUBLE then [BACKSLASH, DOUBLE]
    else if c == TAB then [BACKSLASH, LOWER_T]
    else if c == LF then [BACKSLASH, LOWER_N]
    else if c == CR then [BACKSLASH, LOWER_R]
    else if !Printable(c) then [BACKSLASH, ZERO + c / 64, ZERO + c / 8 % 8, ZERO + c % 8]
    else [c]
  }

  function Escaped(s: seq<byte>): seq<byte> {
    if s == [] then [] else Printed(s[0]) + Escaped(s[1..])
  }

  // ---------- Reading ----------

  /** The first character of an escaped text, and how many bytes it takes.  Three octal digits can
      exceed a byte; the char that holds them keeps the low eight bits. */
  function Lead(s: seq<byte>): (r: (byte, nat))
    requires s != [] && s != [BACKSLASH]
    ensures 1 <= r.1 <= |s|
  {
    if s[0] != BACKSLASH then (s[0], 1)
    else if s[1] == LOWER_N then (LF, 2)
    else if s[1] == LOWER_T then (TAB, 2)
    else if s[1] == LOWER_R then (CR, 2)
    else if !Octal(s[1]) then (s[1], 2)
    else if |s| == 2 || !Octal(s[2]) then (s[1] - ZERO, 2)
    else
      var two := (s[1] - ZERO) * 8 + (s[2] - ZERO);
      if |s| == 3 || !Octal(s[3]) then (two, 3)
      else ((two * 8 + (s[3] - ZERO)) % 256, 4)
  }

  /** No backslash is left over at the end. */
  predicate Complete(s: seq<byte>)
    decreases |s|
  {
    s == [] || (s != [BACKSLASH] && Complete(s[Lead(s).1..]))
  }

  function Resolved(s: seq<byte>): (r: seq<byte>)
    requires Complete(s)
    ensures |r| <= |s|
    decreases |s|
  {
    if s == [] then [] else [Lead(s).0] + Resolved(s[Lead(s).1..])
  }

  // ---------- Which texts are complete ----------

  /** The number of backslashes at the end. */
  function Trailing(s: seq<byte>): nat {
    if s == [] || s[|s| - 1] != BACKSLASH then 0 else 1 + Trailing(s[..|s| - 1])
  }

  lemma {:induction false} TrailingBound(s: seq<byte>)
    ensures Trailing(s) <= |s|
    ensures forall i | |s| - Trailing(s) <= i < |s| :: s[i] == BACKSLASH
    ensures Trailing(s) < |s| ==> s[|s| - Trailing(s) - 1] != BACKSLASH
  {
    if s != [] && s[|s| - 1] == BACKSLASH { TrailingBound(s[..|s| - 1]); }
  }

  lemma {:induction false} TrailingIs(s: seq<byte>, n: nat)
    requires n <= |s| && forall i | |s| - n <= i < |s| :: s[i] == BACKSLASH
    requires n < |s| ==> s[|s| - n - 1] != BACKSLASH
    ensures Trailing(s) == n
    decreases |s|
  {
    if n > 0 { TrailingIs(s[..|s| - 1], n - 1); }
  }

  /** Cutting off the first character keeps the parity of the final run of backslashes. */
  lemma CutParity(s: seq<byte>)
    requires s != [] && s != [BACKSLASH]
    ensures Trailing(s[Lead(s).1..]) % 2 == Trailing(s) % 2
  {
    var n, rest := Lead(s).1, s[Lead(s).1..];
    TrailingBound(s);
    if Trailing(s) <= |rest| {
      TrailingIs(rest, Trailing(s));
    } else {
      // the whole text is backslashes, and two of them are cut off
      assert s[0] == BACKSLASH by { TrailingBound(s); }
      TrailingIs(rest, |rest|);
    }
  }

  /** resolve_backslashes stays inside its string exactly when the string does not end with an odd
      number of backslashes. */
  lemma {:induction false} CompleteIff(s: seq<byte>)
    ensures Complete(s) <==> Trailing(s) % 2 == 0
    decreases |s|
  {
    if s == [BACKSLASH] {
      assert s[..0] == [];
      assert Trailing(s) == 1;
    } else if s != [] {
      CutParity(s);
      CompleteIff(s[Lead(s).1..]);
    }
  }

  // ---------- Round trip ----------

  /** A printed byte is read back, whatever follows. */
  lemma LeadPrinted(c: byte, rest: seq<byte>)
    ensures var s := Printed(c) + rest;
            s != [BACKSLASH] && Lead(s) == (c, |Printed(c)|) && s[|Printed(c)|..] == rest
  {
    var p := Printed(c);
    var s := p + rest;
    assert s[|p|..] == rest && forall i | 0 <= i < |p| :: s[i] == p[i];
    if c == BACKSLASH || c == DOUBLE || c == TAB || c == LF || c == CR {
      assert |s| >= 2 && s[1] == p[1];
      assert Lead(s) == (c, 2);
    } else if !Printable(c) {
      assert c == (c / 64 * 8 + c / 8 % 8) * 8 + c % 8;
      assert Lead(s) == (c, 4);
    } else {
      assert s[0] == c && s != [BACKSLASH];
      assert Lead(s) == (c, 1);
    }
  }

  /** What output_c_string prints between its quotes is resolved to the original bytes. */
  lemma {:induction false} EscapeRoundTrip(s: seq<byte>)
    ensures Complete(Escaped(s)) && Resolved(Escaped(s)) == s
  {
    if s != [] {
      EscapeRoundTrip(s[1..]);
      LeadPrinted(s[0], Escaped(s[1..]));
      assert s == [s[0]] + s[1..];
    }
  }

  /** Everything it prints is printable. */
  lemma {:induction false} EscapedPrintable(s: seq<byte>)
    ensures forall i | 0 <= i < |Escaped(s)| :: Printable(Escaped(s)[i])
  {
    if s != [] { EscapedPrintable(s[1..]); }
  }

  // ---------- As an argument of a dot command ----------

  /** The text up to the delimiter. */
  function UpTo(s: seq<byte>, delim: byte): (r: seq<byte>)
    ensures |r| <= |s|
  {
    if s == [] || s[0] == delim then [] else [s[0]] + UpTo(s[1..], delim)
  }

  lemma {:induction false} UpToPrefix(s: seq<byte>, delim: byte)
    ensures UpTo(s, delim) == s[..|UpTo(s, delim)|]
  {
    if s != [] && s[0] != delim {
      var r := UpTo(s[1..], delim);
      UpToPrefix(s[1..], delim);
      assert s[..1 + |r|] == [s[0]] + s[1..][..|r|];
    }
  }

  lemma UpToOne(c: byte, t: seq<byte>, delim: byte)
    requires c != delim
    ensures UpTo([c] + t, delim) == [c] + UpTo(t, delim)
  {
    assert ([c] + t)[0] == c && ([c] + t)[1..] == t;
  }

  lemma {:induction false} UpToSkips(s: seq<byte>, t: seq<byte>, delim: byte)
    requires delim !in s
    ensures UpTo(s + t, delim) == s + UpTo(t, delim)
  {
    if s == [] {
      assert s + t == t;
    } else {
      var c, u, rest := s[0], s[1..], UpTo(t, delim);
      assert c != delim && delim !in u;
      UpToSkips(u, t, delim);
      UpToOne(c, u + t, delim);
      assert s + t == [c] + (u + t) && s + rest == [c] + (u + rest);
    }
  }

  /** The argument that the command reader takes from text in double quotes, if it can be resolved. */
  predicate ReadsBackAs(line: seq<byte>, s: seq<byte>) {
    var arg := UpTo(line, DOUBLE);
    Complete(arg) && Resolved(arg) == s
  }

  lemma {:induction false} NoQuoteReadsBack(s: seq<byte>, rest: seq<byte>)
    requires DOUBLE !in s
    ensures UpTo(Escaped(s) + [DOUBLE] + rest, DOUBLE) == Escaped(s)
  {
    if s == [] {
      assert Escaped(s) + [DOUBLE] + rest == [DOUBLE] + rest;
    } else {
      var tail := Escaped(s[1..]) + [DOUBLE] + rest;
      NoQuoteReadsBack(s[1..], rest);
      assert Escaped(s) + [DOUBLE] + rest == Printed(s[0]) + tail;
      assert DOUBLE !in Printed(s[0]) by { assert s[0] in s; }
      UpToSkips(Printed(s[0]), tail, DOUBLE);
    }
  }

  /** At a quote in the text the reader stops, behind the backslash. */
  lemma {:induction false} QuoteCutsOff(s: seq<byte>, rest: seq<byte>)
    requires DOUBLE in s
    ensures !Complete(UpTo(Escaped(s) + [DOUBLE] + rest, DOUBLE))
  {
    var tail := Escaped(s[1..]) + [DOUBLE] + rest;
    assert Escaped(s) + [DOUBLE] + rest == Printed(s[0]) + tail;
    if s[0] == DOUBLE {
      assert Printed(s[0]) + tail == [BACKSLASH] + ([DOUBLE] + tail);
      UpToSkips([BACKSLASH], [DOUBLE] + tail, DOUBLE);
      assert UpTo(Escaped(s) + [DOUBLE] + rest, DOUBLE) == [BACKSLASH];
    } else {
      assert DOUBLE in s[1..];
      QuoteCutsOff(s[1..], rest);
      UpToSkips(Printed(s[0]), tail, DOUBLE);
      LeadPrinted(s[0], UpTo(tail, DOUBLE));
    }
  }

  /** A value that `.show` prints can be given back to a dot command exactly when it holds no quote. */
  lemma ShownReadsBackIff(s: seq<byte>, rest: seq<byte>)
    ensures ReadsBackAs(Escaped(s) + [DOUBLE] + rest, s) <==> DOUBLE !in s
  {
    if DOUBLE in s {
      QuoteCutsOff(s, rest);
    } else {
      NoQuoteReadsBack(s, rest);
      EscapeRoundTrip(s);
    }
  }
}
