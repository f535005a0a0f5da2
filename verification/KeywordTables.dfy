/** The tables of sqlcipher/keywordhash.h, row by row.  Indices of keywords in aHash and aNext are one too
    large, so that 0 can stand for none. */
module KeywordTables {

  const KEYWORDS: nat := 121
  const BUCKETS: nat := 127

  /** zText, in which the keywords overlap. */
  function TextRow(r: nat): seq<char> {
    match r
    case 0 => "REINDEXEDESCAPEACH"
    case 1 => "ECKEYBEFOREIGNOREG"
    case 2 => "EXPLAINSTEADDATABA"
    case 3 => "SELECTABLEFTHENDEF"
    case 4 => "ERRABLELSEXCEPTRAN"
    case 5 => "SACTIONATURALTERAI"
    case 6 => "SEXCLUSIVEXISTSAVE"
    case 7 => "POINTERSECTRIGGERE"
    case 8 => "FERENCESCONSTRAINT"
    case 9 => "OFFSETEMPORARYUNIQ"
    case 10 => "UERYATTACHAVINGROU"
    case 11 => "PDATEBEGINNERELEAS"
    case 12 => "EBETWEENOTNULLIKEC"
    case 13 => "ASCADELETECASECOLL"
    case 14 => "ATECREATECURRENT_D"
    case 15 => "ATEDETACHIMMEDIATE"
    case 16 => "JOINSERTMATCHPLANA"
    case 17 => "LYZEPRAGMABORTVALU"
    case 18 => "ESVIRTUALIMITWHENW"
    case 19 => "HERENAMEAFTEREPLAC"
    case 20 => "EANDEFAULTAUTOINCR"
    case 21 => "EMENTCASTCOLUMNCOM"
    case 22 => "MITCONFLICTCROSSCU"
    case 23 => "RRENT_TIMESTAMPRIM"
    case 24 => "ARYDEFERREDISTINCT"
    case 25 => "DROPFAILFROMFULLGL"
    case 26 => "OBYIFISNULLORDERES"
    case 27 => "TRICTOUTERIGHTROLL"
    case 28 => "BACKROWUNIONUSINGV"
    case _ => "ACUUMVIEWINITIALLY"
  }

  /** aHash: where the chain of a bucket begins. */
  function HeadRow(r: nat): seq<nat> {
    match r
    case 0 => [72, 101, 114, 70, 0, 45, 0, 0, 78, 0, 73, 0, 0]
    case 1 => [42, 12, 74, 15, 0, 113, 81, 50, 108, 0, 19, 0, 0]
    case 2 => [118, 0, 116, 111, 0, 22, 89, 0, 9, 0, 0, 66, 67]
    case 3 => [0, 65, 6, 0, 48, 86, 98, 0, 115, 97, 0, 0, 44]
    case 4 => [0, 99, 24, 0, 17, 0, 119, 49, 23, 0, 5, 106, 25]
    case 5 => [92, 0, 0, 121, 102, 56, 120, 53, 28, 51, 0, 87, 0]
    case 6 => [96, 26, 0, 95, 0, 0, 0, 91, 88, 93, 84, 105, 14]
    case 7 => [39, 104, 0, 77, 0, 18, 85, 107, 32, 0, 117, 76, 109]
    case 8 => [58, 46, 80, 0, 0, 90, 40, 0, 112, 0, 36, 0, 0]
    case _ => [29, 0, 82, 59, 60, 0, 20, 57, 0, 52]
  }

  /** aNext: how a chain goes on. */
  function NextRow(r: nat): seq<nat> {
    match r
    case 0 => [0, 0, 0, 0, 4, 0, 0, 0, 0, 0, 0, 0, 0]
    case 1 => [0, 2, 0, 0, 0, 0, 0, 0, 13, 0, 0, 0, 0]
    case 2 => [0, 7, 0, 0, 0, 0, 0, 0, 0, 0, 0, 0, 0]
    case 3 => [0, 0, 0, 0, 33, 0, 21, 0, 0, 0, 43, 3, 47]
    case 4 => [0, 0, 0, 0, 30, 0, 54, 0, 38, 0, 0, 0, 1]
    case 5 => [62, 0, 0, 63, 0, 41, 0, 0, 0, 0, 0, 0, 0]
    case 6 => [61, 0, 0, 0, 0, 31, 55, 16, 34, 10, 0, 0, 0]
    case 7 => [0, 0, 0, 0, 11, 68, 75, 0, 8, 0, 100, 94, 0]
    case 8 => [103, 0, 83, 0, 71, 0, 0, 110, 27, 37, 69, 79, 0]
    case _ => [35, 64, 0, 0]
  }

  /** aLen. */
  function LenRow(r: nat): seq<nat> {
    match r
    case 0 => [7, 7, 5, 4, 6, 4, 5, 3, 6, 7, 3, 6, 6]
    case 1 => [7, 7, 3, 8, 2, 6, 5, 4, 4, 3, 10, 4, 6]
    case 2 => [11, 6, 2, 7, 5, 5, 9, 6, 9, 9, 7, 10, 10]
    case 3 => [4, 6, 2, 3, 9, 4, 2, 6, 5, 6, 6, 5, 6]
    case 4 => [5, 5, 7, 7, 7, 3, 2, 4, 4, 7, 3, 6, 4]
    case 5 => [7, 6, 12, 6, 9, 4, 6, 5, 4, 7, 6, 5, 6]
    case 6 => [7, 5, 4, 5, 6, 5, 7, 3, 7, 13, 2, 2, 4]
    case 7 => [6, 6, 8, 5, 17, 12, 7, 8, 8, 2, 4, 4, 4]
    case 8 => [4, 4, 2, 2, 6, 5, 8, 5, 5, 8, 3, 5, 5]
    case _ => [6, 4, 9, 3]
  }

  /** aOffset. */
  function OffsetRow(r: nat): seq<nat> {
    match r
    case 0 => [0, 2, 2, 8, 9, 14, 16, 20, 23, 25, 25, 29, 33]
    case 1 => [36, 41, 46, 48, 53, 54, 59, 62, 65, 67, 69, 78, 81]
    case 2 => [86, 91, 95, 96, 101, 105, 109, 117, 122, 128, 136, 142, 152]
    case 3 => [159, 162, 162, 165, 167, 167, 171, 176, 179, 184, 189, 194, 197]
    case 4 => [203, 206, 210, 217, 223, 223, 223, 226, 229, 233, 234, 238, 244]
    case 5 => [248, 255, 261, 273, 279, 288, 290, 296, 301, 303, 310, 315, 320]
    case 6 => [326, 332, 337, 341, 344, 350, 354, 361, 363, 370, 372, 374, 383]
    case 7 => [387, 393, 399, 407, 412, 412, 428, 435, 442, 443, 450, 454, 458]
    case 8 => [462, 466, 469, 471, 473, 479, 483, 491, 495, 500, 508, 511, 516]
    case _ => [521, 527, 531, 536]
  }

  /** aCode, as the numbers of sqlcipher/parse.h. */
  function CodeRow(r: nat): seq<nat> {
    match r
    case 0 => [64, 27, 138, 41, 81, 43, 101, 52, 34, 110, 45, 46, 49]
    case 1 => [2, 48, 140, 40, 24, 116, 16, 95, 136, 11, 109, 137, 114]
    case 2 => [6, 29, 104, 95, 139, 56, 9, 20, 13, 115, 60, 102, 96]
    case 3 => [127, 54, 53, 108, 21, 21, 68, 100, 3, 33, 124, 123, 107]
    case 4 => [5, 95, 14, 71, 74, 19, 51, 98, 49, 36, 32, 106, 134]
    case 5 => [92, 17, 66, 42, 8, 120, 105, 50, 4, 31, 55, 28, 128]
    case 6 => [63, 125, 135, 126, 65, 30, 57, 69, 97, 103, 15, 72, 37]
    case 7 => [38, 10, 39, 95, 66, 66, 99, 7, 117, 70, 111, 44, 119]
    case 8 => [95, 49, 35, 18, 73, 122, 58, 95, 95, 12, 59, 112, 121]
    case _ => [61, 62, 47, 113]
  }

  /** The keywords, spelled out. */
  function SpellingRow(r: nat): seq<string> {
    match r
    case 0 => ["REINDEX", "INDEXED", "INDEX", "DESC", "ESCAPE", "EACH", "CHECK", "KEY"]
    case 1 => ["BEFORE", "FOREIGN", "FOR", "IGNORE", "REGEXP", "EXPLAIN", "INSTEAD", "ADD"]
    case 2 => ["DATABASE", "AS", "SELECT", "TABLE", "LEFT", "THEN", "END", "DEFERRABLE"]
    case 3 => ["ELSE", "EXCEPT", "TRANSACTION", "ACTION", "ON", "NATURAL", "ALTER", "RAISE"]
    case 4 => ["EXCLUSIVE", "EXISTS", "SAVEPOINT", "INTERSECT", "TRIGGER", "REFERENCES", "CONSTRAINT", "INTO"]
    case 5 => ["OFFSET", "OF", "SET", "TEMPORARY", "TEMP", "OR", "UNIQUE", "QUERY"]
    case 6 => ["ATTACH", "HAVING", "GROUP", "UPDATE", "BEGIN", "INNER", "RELEASE", "BETWEEN"]
    case 7 => ["NOTNULL", "NOT", "NO", "NULL", "LIKE", "CASCADE", "ASC", "DELETE"]
    case 8 => ["CASE", "COLLATE", "CREATE", "CURRENT_DATE", "DETACH", "IMMEDIATE", "JOIN", "INSERT"]
    case 9 => ["MATCH", "PLAN", "ANALYZE", "PRAGMA", "ABORT", "VALUES", "VIRTUAL", "LIMIT"]
    case 10 => ["WHEN", "WHERE", "RENAME", "AFTER", "REPLACE", "AND", "DEFAULT", "AUTOINCREMENT"]
    case 11 => ["TO", "IN", "CAST", "COLUMN", "COMMIT", "CONFLICT", "CROSS", "CURRENT_TIMESTAMP"]
    case 12 => ["CURRENT_TIME", "PRIMARY", "DEFERRED", "DISTINCT", "IS", "DROP", "FAIL", "FROM"]
    case 13 => ["FULL", "GLOB", "BY", "IF", "ISNULL", "ORDER", "RESTRICT", "OUTER"]
    case 14 => ["RIGHT", "ROLLBACK", "ROW", "UNION", "USING", "VACUUM", "VIEW", "INITIALLY"]
    case _ => ["ALL"]
  }

  function At<T>(row: seq<T>, k: nat, otherwise: T): T {
    if k < |row| then row[k] else otherwise
  }

  function Head(h: nat): nat { At(HeadRow(h / 13), h % 13, 0) }
  function Next(i: nat): nat { At(NextRow(i / 13), i % 13, 0) }
  function Len(i: nat): nat { At(LenRow(i / 13), i % 13, 0) }
  function Offset(i: nat): nat { At(OffsetRow(i / 13), i % 13, 0) }
  function Code(i: nat): nat { At(CodeRow(i / 13), i % 13, 0) }
  function Spelling(i: nat): string { At(SpellingRow(i / 8), i % 8, "") }

  // ---------- Reading the tables ----------

  /** The bit of weight k of the exclusive or: it is set when an odd number of the three has it set. */
  function Bit(a: nat, b: nat, c: nat, k: nat): nat
    requires k > 0
  {
    if (a / k + b / k + c / k) % 2 == 1 then k else 0
  }

  /** a ^ b ^ c, where only c may have more than ten bits. */
  function Xor(a: nat, b: nat, c: nat): nat
    requires a < 1024 && b < 1024
  {
    Bit(a, b, c, 1) + Bit(a, b, c, 2) + Bit(a, b, c, 4) + Bit(a, b, c, 8) + Bit(a, b, c, 16)
    + Bit(a, b, c, 32) + Bit(a, b, c, 64) + Bit(a, b, c, 128) + Bit(a, b, c, 256) + Bit(a, b, c, 512)
    + c / 1024 * 1024
  }

  function Byte(c: char): (b: nat)
    ensures b < 256
  {
    c as int % 256
  }

  /** What is hashed of a name that has n characters and these two, in lower case, at its ends, */
  function Mix(first: char, last: char, n: nat): nat {
    Xor(Byte(first) * 4, Byte(last) * 3, n)
  }

  /** and the bucket that it is reduced to. */
  function Hash(first: char, last: char, n: nat): (h: nat)
    ensures h < BUCKETS
  {
    Mix(first, last, n) % BUCKETS
  }

  /** n characters of zText from position o on; no keyword reaches into a third row. */
  function Slice(o: nat, n: nat): string {
    var row, from := TextRow(o / 18), o % 18;
    if from + n <= |row| then row[from..from + n]
    else
      var next := TextRow(o / 18 + 1);
      if from > |row| || from + n - |row| > |next| then ""
      else row[from..] + next[..from + n - |row|]
  }
}
