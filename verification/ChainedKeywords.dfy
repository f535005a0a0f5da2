/** keywordCode of sqlcipher/keywordhash.h for any tables: a chained hash over words that overlap in one
    text finds what a linear search over the words finds, if the tables pass a certificate. */
module ChainedKeywords {
  import opened Names

  const TK_ID: nat := 26

  // ---------- Tables ----------

  /** Indices in `head` and `next` are one too large, so that 0 can stand for none.  The hash is taken of
      the first and the last character, in lower case, and the length, and then reduced to a bucket. */
  datatype Table = Table(text: string, hash: (char, char, nat) -> nat, head: seq<int>, next: seq<int>,
                         len: seq<nat>, offset: seq<nat>, code: seq<nat>)
  {
    ghost predicate WellFormed() {
      && |head| > 0 && |next| == |len| == |offset| == |code|
      && (forall h | 0 <= h < |head| :: 0 <= head[h] <= |next|)
      && (forall i | 0 <= i < |next| :: 0 <= next[i] <= i)
      && (forall i | 0 <= i < |next| :: len[i] >= 2 && offset[i] + len[i] <= |text|)
    }

    ghost function Word(i: nat): (w: string)
      requires WellFormed() && i < |next|
      ensures |w| == len[i] >= 2
    {
      text[offset[i]..offset[i] + len[i]]
    }

    ghost function BucketOf(name: string): (h: nat)
      requires WellFormed() && name != ""
      ensures h < |head|
    {
      hash(Lower(name[0]), Lower(name[|name| - 1]), |name|) % |head|
    }
  }

  /** Names that are equal up to case hash alike. */
  lemma SameBucket(t: Table, u: string, v: string)
    requires t.WellFormed() && SameName(u, v) && u != ""
    ensures t.BucketOf(u) == t.BucketOf(v)
  {
    assert Lower(u[0]) == Lower(v[0]) && Lower(u[|u| - 1]) == Lower(v[|v| - 1]);
  }

  /** The code of the first word, from entry i on, that the name is equal to up to case. */
  ghost function Search(t: Table, name: string, i: nat): nat
    requires t.WellFormed()
    decreases |t.next| - i
  {
    if i >= |t.next| then TK_ID
    else if SameName(t.Word(i), name) then t.code[i]
    else Search(t, name, i + 1)
  }

  // ---------- The certificate ----------

  /** The word hashes to its bucket, and the bucket or an entry above points to it. */
  ghost predicate Linked(t: Table, home: seq<nat>, i: nat)
    requires t.WellFormed() && |home| == |t.next| && i < |home|
  {
    && t.BucketOf(t.Word(i)) == home[i]
    && (t.head[home[i]] == i + 1
        || exists p :: i < p < |home| && t.next[p] == i + 1 && home[p] == home[i])
  }

  /** The witness p is the entry that points to i, or negative when the bucket does. */
  lemma LinkedBy(t: Table, home: seq<nat>, i: nat, p: int)
    requires t.WellFormed() && |home| == |t.next| && i < |home| && t.BucketOf(t.Word(i)) == home[i]
    requires p < 0 ==> t.head[home[i]] == i + 1
    requires p >= 0 ==> i < p < |home| && t.next[p] == i + 1 && home[p] == home[i]
    ensures Linked(t, home, i)
  {
  }

  /** Entry i can be reached from entry c. */
  ghost predicate OnChain(t: Table, c: int, i: nat)
    requires t.WellFormed() && c < |t.next|
    decreases c
  {
    c >= 0 && (c == i || OnChain(t, t.next[c] - 1, i))
  }

  /** Word i is unlike the words on the chain from entry c on. */
  ghost predicate UnlikeChain(t: Table, i: nat, c: int)
    requires t.WellFormed() && i < |t.next| && c < |t.next|
    decreases c
  {
    c < 0 || (!SameName(t.Word(i), t.Word(c)) && UnlikeChain(t, i, t.next[c] - 1))
  }

  /** The entries j-1, k-1 and l-1 follow entry i on its chain, as far as these are positive, and their
      words are unlike word i. */
  ghost predicate ShortChain(t: Table, i: nat, j: nat, k: nat, l: nat)
    requires t.WellFormed() && i < |t.next|
  {
    && t.next[i] == j
    && (j > 0 ==> !SameName(t.Word(i), t.Word(j - 1)) && t.next[j - 1] == k)
    && (j > 0 && 0 < k < j ==> !SameName(t.Word(i), t.Word(k - 1)) && t.next[k - 1] == l)
    && (j > 0 && 0 < k < j && 0 < l < k ==> !SameName(t.Word(i), t.Word(l - 1)) && t.next[l - 1] == 0)
  }

  lemma ShortUnlike(t: Table, i: nat, j: nat, k: nat, l: nat)
    requires t.WellFormed() && i < |t.next| && ShortChain(t, i, j, k, l)
    ensures UnlikeChain(t, i, t.next[i] - 1)
  {
    if j > 0 {
      if k > 0 {
        if l > 0 {
          assert UnlikeChain(t, i, t.next[l - 1] - 1);
          assert UnlikeChain(t, i, l - 1);
        }
        assert UnlikeChain(t, i, k - 1);
      }
      assert UnlikeChain(t, i, j - 1);
    }
  }

  ghost predicate Sound(t: Table, home: seq<nat>) {
    && t.WellFormed() && |home| == |t.next|
    && (forall i | 0 <= i < |home| :: Linked(t, home, i))
    && (forall i | 0 <= i < |home| :: UnlikeChain(t, i, t.next[i] - 1))
  }

  // ---------- The chains ----------

  lemma {:induction false} ChainOn(t: Table, c: int, p: nat, i: nat)
    requires t.WellFormed() && c < |t.next| && OnChain(t, c, p) && p < |t.next| && t.next[p] == i + 1
    ensures OnChain(t, c, i)
    decreases c
  {
    if c == p {
      assert OnChain(t, t.next[c] - 1, i);
    } else {
      ChainOn(t, t.next[c] - 1, p, i);
    }
  }

  /** Every word is on the chain of its bucket. */
  lemma {:induction false} InBucket(t: Table, home: seq<nat>, i: nat)
    requires Sound(t, home) && i < |home|
    ensures home[i] < |t.head| && OnChain(t, t.head[home[i]] - 1, i)
    decreases |home| - i
  {
    assert Linked(t, home, i);
    if t.head[home[i]] != i + 1 {
      var p :| i < p < |home| && t.next[p] == i + 1 && home[p] == home[i];
      InBucket(t, home, p);
      ChainOn(t, t.head[home[i]] - 1, p, i);
    }
  }

  /** Of two entries on one chain, one can be reached from the other. */
  lemma {:induction false} OneBelow(t: Table, c: int, i: nat, j: nat)
    requires t.WellFormed() && c < |t.next| && i < |t.next| && j < |t.next|
    requires OnChain(t, c, i) && OnChain(t, c, j) && i != j
    ensures OnChain(t, t.next[i] - 1, j) || OnChain(t, t.next[j] - 1, i)
    decreases c
  {
    if c != i && c != j { OneBelow(t, t.next[c] - 1, i, j); }
  }

  lemma {:induction false} UnlikeBelow(t: Table, i: nat, c: int, j: nat)
    requires t.WellFormed() && i < |t.next| && c < |t.next| && UnlikeChain(t, i, c) && OnChain(t, c, j)
    ensures j < |t.next| && !SameName(t.Word(i), t.Word(j))
    decreases c
  {
    if c != j { UnlikeBelow(t, i, t.next[c] - 1, j); }
  }

  // ---------- The linear search ----------

  ghost predicate IsWord(t: Table, name: string, i: nat)
    requires t.WellFormed()
  {
    i < |t.next| && SameName(t.Word(i), name)
  }

  lemma SameChain(t: Table, home: seq<nat>, name: string, i: nat)
    requires Sound(t, home) && IsWord(t, name, i)
    ensures name != "" && OnChain(t, t.head[t.BucketOf(name)] - 1, i)
  {
    SameBucket(t, t.Word(i), name);
    assert Linked(t, home, i);
    InBucket(t, home, i);
  }

  lemma BelowIsNot(t: Table, home: seq<nat>, name: string, i: nat, j: nat)
    requires Sound(t, home) && IsWord(t, name, i) && j < |t.next| && OnChain(t, t.next[i] - 1, j)
    ensures !IsWord(t, name, j)
  {
    assert UnlikeChain(t, i, t.next[i] - 1);
    UnlikeBelow(t, i, t.next[i] - 1, j);
  }

  /** No name is two words. */
  lemma WordsDistinct(t: Table, home: seq<nat>, name: string, i: nat, j: nat)
    requires Sound(t, home) && IsWord(t, name, i) && IsWord(t, name, j)
    ensures i == j
  {
    SameChain(t, home, name, i);
    SameChain(t, home, name, j);
    if i != j {
      OneBelow(t, t.head[t.BucketOf(name)] - 1, i, j);
      if OnChain(t, t.next[i] - 1, j) {
        BelowIsNot(t, home, name, i, j);
      } else {
        BelowIsNot(t, home, name, j, i);
      }
    }
  }

  lemma {:induction false} SearchFinds(t: Table, name: string, i: nat, k: nat)
    requires t.WellFormed() && k <= i && IsWord(t, name, i) && forall j | k <= j < i :: !IsWord(t, name, j)
    ensures Search(t, name, k) == t.code[i]
    decreases i - k
  {
    if k < i {
      assert !IsWord(t, name, k);
      SearchFinds(t, name, i, k + 1);
    }
  }

  lemma {:induction false} SearchFails(t: Table, name: string, k: nat)
    requires t.WellFormed() && forall j | k <= j < |t.next| :: !IsWord(t, name, j)
    ensures Search(t, name, k) == TK_ID
    decreases |t.next| - k
  {
    if k < |t.next| {
      assert !IsWord(t, name, k);
      SearchFails(t, name, k + 1);
    }
  }

  /** The linear search finds a name that is a word; as no name is two words, the order of the list does
      not matter. */
  lemma SearchIs(t: Table, home: seq<nat>, name: string, i: nat)
    requires Sound(t, home) && IsWord(t, name, i)
    ensures Search(t, name, 0) == t.code[i]
  {
    forall j | 0 <= j < i ensures !IsWord(t, name, j) {
      if IsWord(t, name, j) { WordsDistinct(t, home, name, i, j); }
    }
    SearchFinds(t, name, i, 0);
  }

  // ---------- keywordCode ----------

  /** Every word that the name could be is still ahead on the chain. */
  ghost predicate Ahead(t: Table, name: string, c: int)
    requires t.WellFormed() && c < |t.next|
  {
    forall j | 0 <= j < |t.next| && IsWord(t, name, j) :: OnChain(t, c, j)
  }

  lemma StartAhead(t: Table, home: seq<nat>, name: string)
    requires Sound(t, home) && name != ""
    ensures Ahead(t, name, t.head[t.BucketOf(name)] - 1)
  {
    forall j | 0 <= j < |t.next| && IsWord(t, name, j) ensures OnChain(t, t.head[t.BucketOf(name)] - 1, j) {
      SameChain(t, home, name, j);
    }
  }

  /** An entry of the chain that is not the name is left behind. */
  lemma NextAhead(t: Table, name: string, i: nat)
    requires t.WellFormed() && i < |t.next| && Ahead(t, name, i) && !IsWord(t, name, i)
    ensures t.next[i] - 1 < i && Ahead(t, name, t.next[i] - 1)
  {
  }

  lemma NoneAhead(t: Table, name: string)
    requires t.WellFormed() && Ahead(t, name, -1)
    ensures Search(t, name, 0) == TK_ID
  {
    SearchFails(t, name, 0);
  }

  method KeywordCode(t: Table, ghost home: seq<nat>, z: string, n: nat) returns (code: nat)
    requires n <= |z| && Sound(t, home)
    ensures code == Search(t, z[..n], 0)
  {
    ghost var name := z[..n];
    if n < 2 {
      SearchFails(t, name, 0);
      return TK_ID;
    }
    var h := t.hash(Lower(z[0]), Lower(z[n - 1]), n) % |t.head|;
    var i: int := t.head[h] - 1;
    StartAhead(t, home, name);
    while i >= 0
      invariant i < |t.next| && Ahead(t, name, i)
      decreases i
    {
      if t.len[i] == n && SameName(t.text[t.offset[i]..t.offset[i] + n], z[..n]) {
        SearchIs(t, home, name, i);
        return t.code[i];
      }
      NextAhead(t, name, i);
      i := t.next[i] - 1;
    }
    NoneAhead(t, name);
    return TK_ID;
  }
}
