/** output_c_string, resolve_backslashes and the argument reader, on streams and buffers. */
module ShellEscape {
  import opened Escape

  class ByteFile {
    var bytes: seq<byte>

    constructor ()
      ensures bytes == []
    {
      bytes := [];
    }

    method Putc(c: byte)
      modifies this
      ensures bytes == old(bytes) + [c]
    {
      bytes := bytes + [c];
    }
  }

  /** fprintf("\\%03o"). */
  method PutOctal(out: ByteFile, c: byte)
    modifies out
    ensures out.bytes == old(out.bytes) + [BACKSLASH, ZERO + c / 64, ZERO + c / 8 % 8, ZERO + c % 8]
  {
    out.Putc(BACKSLASH);
    out.Putc(ZERO + c / 64);
    out.Putc(ZERO + c / 8 % 8);
    out.Putc(ZERO + c % 8);
  }

  method PutEscaped(out: ByteFile, c: byte)
    modifies out
    ensures out.bytes == old(out.bytes) + Printed(c)
  {
    if c == BACKSLASH {
      out.Putc(c);
      out.Putc(c);
    } else if c == DOUBLE {
      out.Putc(BACKSLASH);
      out.Putc(DOUBLE);
    } else if c == TAB {
      out.Putc(BACKSLASH);
      out.Putc(LOWER_T);
    } else if c == LF {
      out.Putc(BACKSLASH);
      out.Putc(LOWER_N);
    } else if c == CR {
      out.Putc(BACKSLASH);
      out.Putc(LOWER_R);
    } else if !Printable(c) {
      PutOctal(out, c);
    } else {
      out.Putc(c);
    }
  }

  method PutBody(out: ByteFile, z: seq<byte>)
    modifies out
    ensures out.bytes == old(out.bytes) + Escaped(z)
  {
    var i := 0;
    assert z[0..] == z;
    while i < |z|
      invariant 0 <= i <= |z|
      invariant out.bytes + Escaped(z[i..]) == old(out.bytes) + Escaped(z)
    {
      ghost var was, more := out.bytes, Escaped(z[i + 1..]);
      assert Escaped(z[i..]) == Printed(z[i]) + more by {
        assert z[i..][0] == z[i] && z[i..][1..] == z[i + 1..];
      }
      PutEscaped(out, z[i]);
      assert was + (Printed(z[i]) + more) == out.bytes + more;
      i := i + 1;
    }
    assert out.bytes + [] == out.bytes;
  }

  method OutputCString(out: ByteFile, z: seq<byte>)
    modifies out
    ensures out.bytes == old(out.bytes) + [DOUBLE] + Escaped(z) + [DOUBLE]
  {
    out.Putc(DOUBLE);
    PutBody(out, z);
    out.Putc(DOUBLE);
  }

  // ---------- resolve_backslashes ----------

  /** At position `at` the buffer holds the string s, with its terminator. */
  predicate CString(buf: seq<byte>, at: nat, s: seq<byte>) {
    at + |s| < |buf| && buf[at..at + |s|] == s && buf[at + |s|] == 0 && NulFree(s)
  }

  /** From position i of the string on, the buffer still holds it. */
  predicate Unread(buf: seq<byte>, at: nat, s: seq<byte>, i: nat) {
    && i <= |s| && at + |s| < |buf| && NulFree(s)
    && (forall m | at + i <= m <= at + |s| :: buf[m] == if m - at < |s| then s[m - at] else 0)
  }

  /** The loop has read i bytes of the string and written j of the result, never ahead of itself;
      outside the string nothing has changed. */
  predicate Resolving(was: seq<byte>, buf: seq<byte>, at: nat, s: seq<byte>, i: nat, j: nat) {
    && |buf| == |was| && j <= i && Unread(buf, at, s, i)
    && Complete(s) && Complete(s[i..]) && buf[at..at + j] + Resolved(s[i..]) == Resolved(s)
    && (forall k | 0 <= k < |was| && !(at <= k < at + |s|) :: buf[k] == was[k])
  }

  lemma ResolveStart(buf: seq<byte>, at: nat, s: seq<byte>)
    requires CString(buf, at, s) && Complete(s)
    ensures Resolving(buf, buf, at, s, 0, 0)
  {
    assert s[0..] == s && buf[at..at + 0] == [];
    WholeUnread(buf, at, s);
  }

  /** The byte that is written is the first one still to come. */
  lemma ResolveAppends(buf: seq<byte>, at: nat, s: seq<byte>, i: nat, j: nat)
    requires i < |s| && Complete(s[i..]) && at + j < |buf|
    ensures s[i..] != [BACKSLASH]
    ensures var (c, n) := Lead(s[i..]);
            && Complete(s[i + n..])
            && buf[at + j := c][at..at + (j + 1)] + Resolved(s[i + n..]) == buf[at..at + j] + Resolved(s[i..])
  {
    var (c, n) := Lead(s[i..]);
    var rest := Resolved(s[i + n..]);
    assert s[i..][n..] == s[i + n..];
    assert buf[at + j := c][at..at + (j + 1)] == buf[at..at + j] + [c];
    assert buf[at..at + j] + ([c] + rest) == buf[at..at + j] + [c] + rest;
  }

  lemma ResolveStep(was: seq<byte>, buf: seq<byte>, at: nat, s: seq<byte>, i: nat, j: nat)
    requires Resolving(was, buf, at, s, i, j) && i < |s|
    ensures s[i..] != [BACKSLASH]
    ensures var (c, n) := Lead(s[i..]); Resolving(was, buf[at + j := c], at, s, i + n, j + 1)
  {
    ResolveAppends(buf, at, s, i, j);
  }

  lemma ResolveEnd(was: seq<byte>, buf: seq<byte>, at: nat, s: seq<byte>, j: nat)
    requires Resolving(was, buf, at, s, |s|, j)
    ensures j == |Resolved(s)| <= |s|
    ensures var buf' := buf[at + j := 0];
            && buf'[at..at + j] == Resolved(s)
            && (forall k | 0 <= k < |was| && !(at <= k < at + |s|) :: buf'[k] == was[k])
  {
    assert s[|s|..] == [] && buf[at..at + j] + [] == buf[at..at + j];
    assert buf[at + j := 0][at..at + j] == buf[at..at + j];
    assert was[at + |s|] == buf[at + |s|] == 0;
  }

  /** The body of the loop: the character that begins at z[i], and the index of its last byte. */
  method ReadLead(z: array<byte>, at: nat, i: nat, ghost s: seq<byte>) returns (c: byte, last: nat)
    requires Unread(z[..], at, s, i) && i < |s| && s[i..] != [BACKSLASH]
    ensures (c, last + 1 - i) == Lead(s[i..])
  {
    ghost var t := s[i..];
    assert z[..][at + i] == t[0];
    assert |t| > 1 ==> z[..][at + i + 1] == t[1];
    assert |t| >= 2 ==> z[..][at + i + 2] == if |t| > 2 then t[2] else 0;
    assert |t| >= 3 ==> z[..][at + i + 3] == if |t| > 3 then t[3] else 0;
    c, last := z[at + i], i;
    if c == BACKSLASH {
      last := last + 1;
      c := z[at + last];
      if c == LOWER_N {
        c := LF;
      } else if c == LOWER_T {
        c := TAB;
      } else if c == LOWER_R {
        c := CR;
      } else if Octal(c) {
        c := c - ZERO;
        if Octal(z[at + last + 1]) {
          last := last + 1;
          c := c * 8 + (z[at + last] - ZERO);
          if Octal(z[at + last + 1]) {
            last := last + 1;
            c := (c * 8 + (z[at + last] - ZERO)) % 256;
          }
        }
      }
    }
  }

  /** One turn of the loop. */
  method ResolveOne(z: array<byte>, at: nat, i: nat, j: nat, ghost was: seq<byte>, ghost s: seq<byte>)
    returns (i': nat, j': nat)
    requires Resolving(was, z[..], at, s, i, j) && z[at + i] != 0
    modifies z
    ensures i < i' && Resolving(was, z[..], at, s, i', j')
  {
    ghost var now := z[..];
    assert now[at + i] != 0;
    ResolveStep(was, now, at, s, i, j);
    var c, last := ReadLead(z, at, i, s);
    z[at + j] := c;
    assert z[..] == now[at + j := c];
    i', j' := last + 1, j + 1;
  }

  /** resolve_backslashes, on the string at position `at` of a longer line. */
  method ResolveBackslashes(z: array<byte>, at: nat, ghost s: seq<byte>)
    requires CString(z[..], at, s) && Complete(s)
    modifies z
    ensures at + |Resolved(s)| < z.Length
    ensures z[at..at + |Resolved(s)|] == Resolved(s) && z[at + |Resolved(s)|] == 0
    ensures forall k | 0 <= k < z.Length && !(at <= k < at + |s|) :: z[k] == old(z[k])
  {
    ghost var was := z[..];
    var i: nat, j: nat := 0, 0;
    ResolveStart(was, at, s);
    while z[at + i] != 0
      invariant Resolving(was, z[..], at, s, i, j)
      decreases |s| - i
    {
      i, j := ResolveOne(z, at, i, j, was, s);
    }
    ghost var now := z[..];
    assert now[at + i] == 0;
    ResolveEnd(was, now, at, s, j);
    z[at + j] := 0;
    assert z[..] == now[at + j := 0];
  }

  // ---------- A quoted argument of a dot command ----------

  /** The scan for the delimiter has passed i bytes. */
  predicate Scanned(line: seq<byte>, delim: byte, i: nat) {
    i <= |line| && |UpTo(line, delim)| == i + |UpTo(line[i..], delim)|
  }

  lemma ScanStep(line: seq<byte>, delim: byte, i: nat)
    requires Scanned(line, delim, i)
    ensures i == |UpTo(line, delim)| <==> i == |line| || line[i] == delim
    ensures i < |line| && line[i] != delim ==> Scanned(line, delim, i + 1)
  {
    if i < |line| {
      assert line[i..][1..] == line[i + 1..];
    }
  }

  /** The argument that ends at the delimiter. */
  function Argument(line: seq<byte>, delim: byte): seq<byte>
    requires delim == DOUBLE ==> Complete(UpTo(line, delim))
  {
    if delim == DOUBLE then Resolved(UpTo(line, delim)) else UpTo(line, delim)
  }

  /** The scan for the delimiter. */
  method FindDelimiter(zLine: array<byte>, start: nat, delim: byte, ghost line: seq<byte>) returns (i: nat)
    requires Unread(zLine[..], start, line, 0)
    ensures i == start + |UpTo(line, delim)|
    ensures zLine[i] == delim || zLine[i] == 0
    ensures UpTo(line, delim) == line <==> zLine[i] == 0
  {
    i := start;
    UpToPrefix(line, delim);
    assert line[0..] == line;
    while zLine[i] != 0 && zLine[i] != delim
      invariant start <= i && Scanned(line, delim, i - start)
      decreases start + |line| - i
    {
      assert zLine[..][i] == zLine[i];
      ScanStep(line, delim, i - start);
      i := i + 1;
    }
    assert zLine[..][i] == zLine[i];
    ScanStep(line, delim, i - start);
  }

  /** The delimiter is overwritten, so that the argument stands as a string of its own. */
  method CutArgument(zLine: array<byte>, start: nat, delim: byte, ghost line: seq<byte>) returns (i: nat)
    requires CString(zLine[..], start, line) && delim != 0
    modifies zLine
    ensures CString(zLine[..], start, UpTo(line, delim))
    ensures i == start + |UpTo(line, delim)| + (if UpTo(line, delim) == line then 0 else 1)
    ensures forall k | 0 <= k < zLine.Length && !(start <= k < i) :: zLine[k] == old(zLine[k])
  {
    ghost var arg := UpTo(line, delim);
    UpToPrefix(line, delim);
    WholeUnread(zLine[..], start, line);
    i := FindDelimiter(zLine, start, delim, line);
    assert zLine[start..start + |arg|] == arg;
    if zLine[i] == delim {
      zLine[i] := 0;
      i := i + 1;
    }
    assert zLine[start..start + |arg|] == arg;
  }

  /** Reading an argument behind an opening delimiter: the argument stands in place as a string of its
      own, and what follows it is left alone. */
  method ReadArgument(zLine: array<byte>, start: nat, delim: byte, ghost line: seq<byte>) returns (i: nat)
    requires CString(zLine[..], start, line) && (delim == DOUBLE || delim == '\'' as int)
    requires delim == DOUBLE ==> Complete(UpTo(line, delim))
    modifies zLine
    ensures var arg := Argument(line, delim);
            start + |arg| < zLine.Length && zLine[start..start + |arg|] == arg && zLine[start + |arg|] == 0
    ensures i == start + |UpTo(line, delim)| + (if UpTo(line, delim) == line then 0 else 1)
    ensures forall k | 0 <= k < zLine.Length && !(start <= k < i) :: zLine[k] == old(zLine[k])
  {
    i := CutArgument(zLine, start, delim, line);
    if delim == DOUBLE {
      ResolveBackslashes(zLine, start, UpTo(line, delim));
    }
  }

  lemma WholeUnread(buf: seq<byte>, at: nat, s: seq<byte>)
    requires CString(buf, at, s)
    ensures Unread(buf, at, s, 0)
    ensures forall n | 0 <= n <= |s| :: buf[at..at + n] == s[..n]
  {
    forall m | at <= m < at + |s| ensures buf[m] == s[m - at] { assert buf[at..at + |s|][m - at] == s[m - at]; }
  }
}
