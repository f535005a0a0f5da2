/** The tables of sqlcipher/keywordhash.h pass the certificate, so keywordCode finds what a linear search
    over the spelled-out keywords finds. */
module KeywordHash {
  import opened ChainedKeywords
  import opened KeywordChecks
  import opened KeywordEntries
  import opened KeywordTables
  import opened Names

  const TEXT_SIZE: nat := 540

  function Tables(): Table {
    Table(seq(TEXT_SIZE, k requires 0 <= k < TEXT_SIZE => At(TextRow(k / 18), k % 18, ' ')),
          Mix,
          seq(BUCKETS, h requires 0 <= h < BUCKETS => Head(h)),
          seq(KEYWORDS, i requires 0 <= i < KEYWORDS => Next(i)),
          seq(KEYWORDS, i requires 0 <= i < KEYWORDS => Len(i)),
          seq(KEYWORDS, i requires 0 <= i < KEYWORDS => Offset(i)),
          seq(KEYWORDS, i requires 0 <= i < KEYWORDS => Code(i)))
  }

  function Homes(): seq<nat> {
    seq(KEYWORDS, i requires 0 <= i < KEYWORDS => Home(i))
  }

  lemma HeadRowInTable(r: nat)
    ensures forall k | 0 <= k < |HeadRow(r)| :: HeadRow(r)[k] <= KEYWORDS
  {
    if r < 5 { LowRowInTable(r); } else { HighRowInTable(r); }
  }

  lemma LowRowInTable(r: nat)
    requires r < 5
    ensures forall k | 0 <= k < |HeadRow(r)| :: HeadRow(r)[k] <= KEYWORDS
  {
  }

  lemma HighRowInTable(r: nat)
    requires r >= 5
    ensures forall k | 0 <= k < |HeadRow(r)| :: HeadRow(r)[k] <= KEYWORDS
  {
  }

  lemma HeadInTable(h: nat)
    ensures Head(h) <= KEYWORDS
  {
    HeadRowInTable(h / 13);
  }

  lemma TablesWellFormed()
    ensures Tables().WellFormed()
  {
    forall h | 0 <= h < BUCKETS ensures 0 <= Tables().head[h] <= KEYWORDS { HeadInTable(h); }
    forall i | 0 <= i < KEYWORDS
      ensures 0 <= Tables().next[i] <= i && Tables().len[i] >= 2 && Tables().offset[i] + Tables().len[i] <= TEXT_SIZE
    {
      var j, k, l := AllApart(i);
      AllPacked(i);
    }
  }

  lemma RowLength(r: nat)
    ensures |TextRow(r)| == 18
  {
  }

  lemma TextIs(m: nat)
    requires m < TEXT_SIZE
    ensures |TextRow(m / 18)| == 18 && Tables().text[m] == TextRow(m / 18)[m % 18]
  {
    RowLength(m / 18);
  }

  /** A text that is laid out in rows of 18, cut at o. */
  lemma CutRows(text: string, rows: nat -> string, o: nat, n: nat)
    requires o + n <= |text| && o % 18 + n <= 36 && |rows(o / 18)| == |rows(o / 18 + 1)| == 18
    requires forall m | o <= m < o + n :: |rows(m / 18)| == 18 && text[m] == rows(m / 18)[m % 18]
    ensures text[o..o + n] ==
            if o % 18 + n <= 18 then rows(o / 18)[o % 18..o % 18 + n]
            else rows(o / 18)[o % 18..] + rows(o / 18 + 1)[..o % 18 + n - 18]
  {
    var cut := if o % 18 + n <= 18 then rows(o / 18)[o % 18..o % 18 + n]
               else rows(o / 18)[o % 18..] + rows(o / 18 + 1)[..o % 18 + n - 18];
    forall m | o <= m < o + n ensures text[m] == cut[m - o] {
      if m - o + o % 18 < 18 {
        assert m / 18 == o / 18 && m % 18 == m - o + o % 18;
      } else {
        assert m / 18 == o / 18 + 1 && m % 18 == m - o + o % 18 - 18;
      }
    }
  }

  /** The slice of the text that runs over the rows. */
  lemma SliceIs(o: nat, n: nat)
    requires o + n <= TEXT_SIZE && |Slice(o, n)| == n > 0
    ensures Tables().text[o..o + n] == Slice(o, n)
  {
    RowLength(o / 18);
    RowLength(o / 18 + 1);
    SliceShort(o, n);
    forall m | o <= m < o + n ensures |TextRow(m / 18)| == 18 && Tables().text[m] == TextRow(m / 18)[m % 18] {
      TextIs(m);
    }
    CutRows(Tables().text, TextRow, o, n);
  }

  lemma SliceShort(o: nat, n: nat)
    requires |Slice(o, n)| == n > 0 && |TextRow(o / 18)| == |TextRow(o / 18 + 1)| == 18
    ensures o % 18 + n <= 36
    ensures Slice(o, n) == if o % 18 + n <= 18 then TextRow(o / 18)[o % 18..o % 18 + n]
                           else TextRow(o / 18)[o % 18..] + TextRow(o / 18 + 1)[..o % 18 + n - 18]
  {
  }

  /** The packed text decodes to the keywords. */
  lemma WordIsSpelled(i: nat)
    requires i < KEYWORDS
    ensures Tables().WellFormed() && Tables().Word(i) == Spelling(i)
  {
    TablesWellFormed();
    AllPacked(i);
    SliceIs(Offset(i), Len(i));
  }

  lemma BucketIs(i: nat)
    requires i < KEYWORDS
    ensures Tables().WellFormed() && Spelling(i) != "" && Tables().BucketOf(Spelling(i)) == Home(i)
  {
    TablesWellFormed();
    AllHashed(i);
  }

  lemma PointedTo(i: nat) returns (p: int)
    requires i < KEYWORDS
    ensures Home(i) < BUCKETS
    ensures p < 0 ==> Head(Home(i)) == i + 1
    ensures p >= 0 ==> i < p < KEYWORDS && Next(p) == i + 1 && Home(p) == Home(i)
  {
    AllHashed(i);
    if Head(Home(i)) == i + 1 {
      p := -1;
    } else {
      p :| i < p < KEYWORDS && Next(p) == i + 1 && Home(p) == Home(i);
    }
  }

  /** The tables as sequences. */
  predicate Laid(t: Table, home: seq<nat>) {
    && |t.head| == BUCKETS && |t.next| == |home| == KEYWORDS
    && (forall h | 0 <= h < BUCKETS :: t.head[h] == Head(h))
    && (forall i | 0 <= i < KEYWORDS :: t.next[i] == Next(i))
    && (forall i | 0 <= i < KEYWORDS :: home[i] == Home(i))
  }

  lemma LinkedIn(t: Table, home: seq<nat>, i: nat)
    requires t.WellFormed() && Laid(t, home) && i < KEYWORDS && t.BucketOf(t.Word(i)) == Home(i)
    ensures Linked(t, home, i)
  {
    var p := PointedTo(i);
    LinkedBy(t, home, i, p);
  }

  lemma TablesLinked(i: nat)
    requires i < KEYWORDS
    ensures Tables().WellFormed() && |Homes()| == KEYWORDS == |Tables().next| && Linked(Tables(), Homes(), i)
  {
    WordIsSpelled(i);
    BucketIs(i);
    LinkedIn(Tables(), Homes(), i);
  }

  ghost predicate Spelled(t: Table) {
    t.WellFormed() && |t.next| == KEYWORDS && forall i | 0 <= i < KEYWORDS :: t.Word(i) == Spelling(i)
  }

  lemma TablesSpelled()
    ensures Spelled(Tables()) && Laid(Tables(), Homes())
  {
    TablesWellFormed();
    forall i | 0 <= i < KEYWORDS ensures Tables().Word(i) == Spelling(i) {
      WordIsSpelled(i);
    }
  }

  lemma ChainUnlike(t: Table, home: seq<nat>, i: nat)
    requires Spelled(t) && Laid(t, home) && i < KEYWORDS
    ensures UnlikeChain(t, i, t.next[i] - 1)
  {
    var j, k, l := AllApart(i);
    ShortUnlike(t, i, j, k, l);
  }

  /** The tables pass the certificate. */
  lemma TablesSound()
    ensures Sound(Tables(), Homes())
  {
    TablesSpelled();
    forall i | 0 <= i < KEYWORDS
      ensures Linked(Tables(), Homes(), i) && UnlikeChain(Tables(), i, Tables().next[i] - 1)
    {
      TablesLinked(i);
      ChainUnlike(Tables(), Homes(), i);
    }
  }

  // ---------- The list of keywords ----------

  predicate IsKeyword(name: string, i: nat) {
    i < KEYWORDS && SameName(Spelling(i), name)
  }

  /** sqlite3KeywordCode: the code of the one keyword that the name is equal to up to case, or TK_ID. */
  method KeywordCode(z: string, n: nat) returns (code: nat)
    requires n <= |z|
    ensures forall i :: IsKeyword(z[..n], i) ==> code == Code(i)
    ensures (forall i :: !IsKeyword(z[..n], i)) ==> code == TK_ID
  {
    TablesSound();
    TablesSpelled();
    code := ChainedKeywords.KeywordCode(Tables(), Homes(), z, n);
    SearchSpelled(Tables(), Homes(), z[..n]);
  }

  lemma SearchSpelled(t: Table, home: seq<nat>, name: string)
    requires Sound(t, home) && Spelled(t) && forall i | 0 <= i < KEYWORDS :: t.code[i] == Code(i)
    ensures forall i :: IsKeyword(name, i) ==> Search(t, name, 0) == Code(i)
    ensures (forall i :: !IsKeyword(name, i)) ==> Search(t, name, 0) == TK_ID
  {
    forall i | IsKeyword(name, i) ensures Search(t, name, 0) == Code(i) {
      SearchIs(t, home, name, i);
    }
    if forall i :: !IsKeyword(name, i) {
      forall j | 0 <= j < |t.next| ensures !IsWord(t, name, j) {
        assert !IsKeyword(name, j);
      }
      SearchFails(t, name, 0);
    }
  }
}
