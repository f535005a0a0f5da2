/** What is checked of an entry of the keyword tables (sqlcipher/keywordhash.h), and how. */
module KeywordChecks {
  import opened KeywordTables
  import opened Names

  /** The bucket of each keyword. */
  function HomeRow(r: nat): seq<nat> {
    match r
    case 0 => [40, 16, 74, 62, 62, 41, 73, 69, 34, 86, 78, 14, 31]
    case 1 => [90, 16, 44, 56, 96, 23, 123, 105, 31, 60, 54, 64, 79]
    case 2 => [18, 73, 117, 124, 88, 99, 51, 76, 26, 114, 2, 28, 91]
    case 3 => [110, 103, 13, 20, 51, 5, 105, 126, 43, 59, 20, 74, 126]
    case 4 => [72, 120, 97, 70, 124, 104, 120, 121, 28, 37, 47, 58, 40]
    case 5 => [37, 38, 48, 47, 3, 103, 0, 10, 15, 45, 102, 94, 8]
    case 6 => [28, 106, 19, 119, 98, 88, 97, 44, 76, 86, 32, 109, 85]
    case 7 => [65, 87, 89, 81, 78, 48, 45, 53, 69, 1, 69, 89, 92]
    case 8 => [89, 63, 98, 21, 103, 112, 29, 112, 18, 2, 47, 28, 101]
    case _ => [26, 58, 71, 68]
  }

  function Home(i: nat): nat { At(HomeRow(i / 13), i % 13, 0) }

  /** zText holds the keyword where aOffset and aLen say. */
  predicate Packed(i: nat) {
    Len(i) == |Spelling(i)| >= 2 && Offset(i) + Len(i) <= 540 && Slice(Offset(i), Len(i)) == Spelling(i)
  }

  /** The keyword hashes to its bucket, and an entry above it, or the bucket, points to it. */
  predicate Hashed(i: nat) {
    var s := Spelling(i);
    && s != "" && Hash(Lower(s[0]), Lower(s[|s| - 1]), |s|) == Home(i)
    && (Head(Home(i)) == i + 1 || exists p :: i < p < KEYWORDS && Next(p) == i + 1 && Home(p) == Home(i))
  }

  predicate Unlike(i: nat, j: nat) {
    !SameName(Spelling(i), Spelling(j))
  }

  /** On its chain entry i is followed by the entries j-1, k-1 and l-1, as far as these are positive, and
      these are spelled unlike it. */
  predicate Apart(i: nat, j: nat, k: nat, l: nat) {
    && Next(i) == j <= i
    && (j > 0 ==> Unlike(i, j - 1) && Next(j - 1) == k < j)
    && (j > 0 && k > 0 ==> Unlike(i, k - 1) && Next(k - 1) == l < k)
    && (j > 0 && k > 0 && l > 0 ==> Unlike(i, l - 1) && Next(l - 1) == 0)
  }

  // ---------- How it is checked ----------

  /** A keyword that lies in one row of zText, */
  lemma Pack(i: nat, from: nat, word: string, row: string)
    requires Spelling(i) == word && Offset(i) == from && Len(i) == |word| >= 2 && from + |word| <= 540
    requires TextRow(from / 18) == row && from % 18 + |word| <= |row|
    requires forall k | 0 <= k < |word| :: row[from % 18 + k] == word[k]
    ensures Packed(i)
  {
    assert Slice(from, |word|) == word;
  }

  /** and one that goes on in the next row. */
  lemma PackTwo(i: nat, from: nat, u: string, v: string)
    requires Spelling(i) == u + v && Offset(i) == from && Len(i) == |u| + |v| >= 2 && v != ""
    requires from + |u| + |v| <= 540
    requires from % 18 + |u| == |TextRow(from / 18)| == 18 && |v| <= |TextRow(from / 18 + 1)|
    requires forall k | 0 <= k < |u| :: u[k] == TextRow(from / 18)[from % 18 + k]
    requires forall k | 0 <= k < |v| :: v[k] == TextRow(from / 18 + 1)[k]
    ensures Packed(i)
  {
    assert TextRow(from / 18)[from % 18..] == u && TextRow(from / 18 + 1)[..|v|] == v;
  }

  /** A keyword of n characters that end in a and b, in lower case; x is the exclusive or that is hashed.  The
      bucket points to it, */
  lemma Ends(i: nat, a: nat, b: nat, n: nat, x: nat)
    requires |Spelling(i)| == n > 0 && Byte(Lower(Spelling(i)[0])) == a && Byte(Lower(Spelling(i)[n - 1])) == b
    requires Xor(a * 4, b * 3, n) == x && Home(i) == x % BUCKETS && Head(Home(i)) == i + 1
    ensures Hashed(i)
  {
  }

  /** or entry p does. */
  lemma EndsBelow(i: nat, a: nat, b: nat, n: nat, x: nat, p: nat)
    requires |Spelling(i)| == n > 0 && Byte(Lower(Spelling(i)[0])) == a && Byte(Lower(Spelling(i)[n - 1])) == b
    requires Xor(a * 4, b * 3, n) == x && Home(i) == x % BUCKETS
    requires i < p < KEYWORDS && Next(p) == i + 1 && Home(p) == Home(i)
    ensures Hashed(i)
  {
  }

  lemma Letter(i: nat, j: nat, u: string, v: string, k: nat)
    requires Spelling(i) == u && Spelling(j) == v && k < |u| && k < |v| && Lower(u[k]) != Lower(v[k])
    ensures Unlike(i, j)
  {
  }

  lemma Length(i: nat, j: nat, u: string, v: string)
    requires Spelling(i) == u && Spelling(j) == v && |u| != |v|
    ensures Unlike(i, j)
  {
  }
}
