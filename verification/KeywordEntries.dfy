/** The entries of the keyword tables, checked one by one (sqlcipher/keywordhash.h). */
module KeywordEntries {
  import opened KeywordChecks
  import opened KeywordTables

  lemma Text0(i: nat) requires i == 0 ensures Packed(i)
  { assert forall k | 0 <= k < 7 :: TextRow(0)[k] == "REINDEX"[k]; Pack(i, 0, "REINDEX", TextRow(0)); }
  lemma Text1(i: nat) requires i == 1 ensures Packed(i)
  { assert forall k | 0 <= k < 7 :: TextRow(0)[2 + k] == "INDEXED"[k]; Pack(i, 2, "INDEXED", TextRow(0)); }
  lemma Text2(i: nat) requires i == 2 ensures Packed(i)
  { assert forall k | 0 <= k < 5 :: TextRow(0)[2 + k] == "INDEX"[k]; Pack(i, 2, "INDEX", TextRow(0)); }
  lemma Text3(i: nat) requires i == 3 ensures Packed(i)
  { assert forall k | 0 <= k < 4 :: TextRow(0)[8 + k] == "DESC"[k]; Pack(i, 8, "DESC", TextRow(0)); }
  lemma Text4(i: nat) requires i == 4 ensures Packed(i)
  { assert forall k | 0 <= k < 6 :: TextRow(0)[9 + k] == "ESCAPE"[k]; Pack(i, 9, "ESCAPE", TextRow(0)); }
  lemma Text5(i: nat) requires i == 5 ensures Packed(i)
  { assert forall k | 0 <= k < 4 :: TextRow(0)[14 + k] == "EACH"[k]; Pack(i, 14, "EACH", TextRow(0)); }
  lemma Text6(i: nat) requires i == 6 ensures Packed(i)
  { PackTwo(i, 16, "CH", "ECK"); }
  lemma Text7(i: nat) requires i == 7 ensures Packed(i)
  { assert forall k | 0 <= k < 3 :: TextRow(1)[2 + k] == "KEY"[k]; Pack(i, 20, "KEY", TextRow(1)); }
  lemma Text8(i: nat) requires i == 8 ensures Packed(i)
  { assert forall k | 0 <= k < 6 :: TextRow(1)[5 + k] == "BEFORE"[k]; Pack(i, 23, "BEFORE", TextRow(1)); }
  lemma Text9(i: nat) requires i == 9 ensures Packed(i)
  { assert forall k | 0 <= k < 7 :: TextRow(1)[7 + k] == "FOREIGN"[k]; Pack(i, 25, "FOREIGN", TextRow(1)); }
  lemma Text10(i: nat) requires i == 10 ensures Packed(i)
  { assert forall k | 0 <= k < 3 :: TextRow(1)[7 + k] == "FOR"[k]; Pack(i, 25, "FOR", TextRow(1)); }
  lemma Text11(i: nat) requires i == 11 ensures Packed(i)
  { assert forall k | 0 <= k < 6 :: TextRow(1)[11 + k] == "IGNORE"[k]; Pack(i, 29, "IGNORE", TextRow(1)); }
  lemma Text12(i: nat) requires i == 12 ensures Packed(i)
  { PackTwo(i, 33, "REG", "EXP"); }
  lemma Text13(i: nat) requires i == 13 ensures Packed(i)
  { assert forall k | 0 <= k < 7 :: TextRow(2)[k] == "EXPLAIN"[k]; Pack(i, 36, "EXPLAIN", TextRow(2)); }
  lemma Text14(i: nat) requires i == 14 ensures Packed(i)
  { assert forall k | 0 <= k < 7 :: TextRow(2)[5 + k] == "INSTEAD"[k]; Pack(i, 41, "INSTEAD", TextRow(2)); }
  lemma Text15(i: nat) requires i == 15 ensures Packed(i)
  { assert forall k | 0 <= k < 3 :: TextRow(2)[10 + k] == "ADD"[k]; Pack(i, 46, "ADD", TextRow(2)); }
  lemma Text16(i: nat) requires i == 16 ensures Packed(i)
  { PackTwo(i, 48, "DATABA", "SE"); }
  lemma Text17(i: nat) requires i == 17 ensures Packed(i)
  { PackTwo(i, 53, "A", "S"); }
  lemma Text18(i: nat) requires i == 18 ensures Packed(i)
  { assert forall k | 0 <= k < 6 :: TextRow(3)[k] == "SELECT"[k]; Pack(i, 54, "SELECT", TextRow(3)); }
  lemma Text19(i: nat) requires i == 19 ensures Packed(i)
  { assert forall k | 0 <= k < 5 :: TextRow(3)[5 + k] == "TABLE"[k]; Pack(i, 59, "TABLE", TextRow(3)); }
  lemma Text20(i: nat) requires i == 20 ensures Packed(i)
  { assert forall k | 0 <= k < 4 :: TextRow(3)[8 + k] == "LEFT"[k]; Pack(i, 62, "LEFT", TextRow(3)); }
  lemma Text21(i: nat) requires i == 21 ensures Packed(i)
  { assert forall k | 0 <= k < 4 :: TextRow(3)[11 + k] == "THEN"[k]; Pack(i, 65, "THEN", TextRow(3)); }
  lemma Text22(i: nat) requires i == 22 ensures Packed(i)
  { assert forall k | 0 <= k < 3 :: TextRow(3)[13 + k] == "END"[k]; Pack(i, 67, "END", TextRow(3)); }
  lemma Text23(i: nat) requires i == 23 ensures Packed(i)
  { PackTwo(i, 69, "DEF", "ERRABLE"); }
  lemma Text24(i: nat) requires i == 24 ensures Packed(i)
  { assert forall k | 0 <= k < 4 :: TextRow(4)[6 + k] == "ELSE"[k]; Pack(i, 78, "ELSE", TextRow(4)); }
  lemma Text25(i: nat) requires i == 25 ensures Packed(i)
  { assert forall k | 0 <= k < 6 :: TextRow(4)[9 + k] == "EXCEPT"[k]; Pack(i, 81, "EXCEPT", TextRow(4)); }
  lemma Text26(i: nat) requires i == 26 ensures Packed(i)
  { PackTwo(i, 86, "TRAN", "SACTION"); }
  lemma Text27(i: nat) requires i == 27 ensures Packed(i)
  { assert forall k | 0 <= k < 6 :: TextRow(5)[1 + k] == "ACTION"[k]; Pack(i, 91, "ACTION", TextRow(5)); }
  lemma Text28(i: nat) requires i == 28 ensures Packed(i)
  { assert forall k | 0 <= k < 2 :: TextRow(5)[5 + k] == "ON"[k]; Pack(i, 95, "ON", TextRow(5)); }
  lemma Text29(i: nat) requires i == 29 ensures Packed(i)
  { assert forall k | 0 <= k < 7 :: TextRow(5)[6 + k] == "NATURAL"[k]; Pack(i, 96, "NATURAL", TextRow(5)); }
  lemma Text30(i: nat) requires i == 30 ensures Packed(i)
  { assert forall k | 0 <= k < 5 :: TextRow(5)[11 + k] == "ALTER"[k]; Pack(i, 101, "ALTER", TextRow(5)); }
  lemma Text31(i: nat) requires i == 31 ensures Packed(i)
  { PackTwo(i, 105, "RAI", "SE"); }
  lemma Text32(i: nat) requires i == 32 ensures Packed(i)
  { assert forall k | 0 <= k < 9 :: TextRow(6)[1 + k] == "EXCLUSIVE"[k]; Pack(i, 109, "EXCLUSIVE", TextRow(6)); }
  lemma Text33(i: nat) requires i == 33 ensures Packed(i)
  { assert forall k | 0 <= k < 6 :: TextRow(6)[9 + k] == "EXISTS"[k]; Pack(i, 117, "EXISTS", TextRow(6)); }
  lemma Text34(i: nat) requires i == 34 ensures Packed(i)
  { PackTwo(i, 122, "SAVE", "POINT"); }
  lemma Text35(i: nat) requires i == 35 ensures Packed(i)
  { assert forall k | 0 <= k < 9 :: TextRow(7)[2 + k] == "INTERSECT"[k]; Pack(i, 128, "INTERSECT", TextRow(7)); }
  lemma Text36(i: nat) requires i == 36 ensures Packed(i)
  { assert forall k | 0 <= k < 7 :: TextRow(7)[10 + k] == "TRIGGER"[k]; Pack(i, 136, "TRIGGER", TextRow(7)); }
  lemma Text37(i: nat) requires i == 37 ensures Packed(i)
  { PackTwo(i, 142, "RE", "FERENCES"); }
  lemma Text38(i: nat) requires i == 38 ensures Packed(i)
  { assert forall k | 0 <= k < 10 :: TextRow(8)[8 + k] == "CONSTRAINT"[k]; Pack(i, 152, "CONSTRAINT", TextRow(8)); }
  lemma Text39(i: nat) requires i == 39 ensures Packed(i)
  { PackTwo(i, 159, "INT", "O"); }
  lemma Text40(i: nat) requires i == 40 ensures Packed(i)
  { assert forall k | 0 <= k < 6 :: TextRow(9)[k] == "OFFSET"[k]; Pack(i, 162, "OFFSET", TextRow(9)); }
  lemma Text41(i: nat) requires i == 41 ensures Packed(i)
  { assert forall k | 0 <= k < 2 :: TextRow(9)[k] == "OF"[k]; Pack(i, 162, "OF", TextRow(9)); }
  lemma Text42(i: nat) requires i == 42 ensures Packed(i)
  { assert forall k | 0 <= k < 3 :: TextRow(9)[3 + k] == "SET"[k]; Pack(i, 165, "SET", TextRow(9)); }
  lemma Text43(i: nat) requires i == 43 ensures Packed(i)
  { assert forall k | 0 <= k < 9 :: TextRow(9)[5 + k] == "TEMPORARY"[k]; Pack(i, 167, "TEMPORARY", TextRow(9)); }
  lemma Text44(i: nat) requires i == 44 ensures Packed(i)
  { assert forall k | 0 <= k < 4 :: TextRow(9)[5 + k] == "TEMP"[k]; Pack(i, 167, "TEMP", TextRow(9)); }
  lemma Text45(i: nat) requires i == 45 ensures Packed(i)
  { assert forall k | 0 <= k < 2 :: TextRow(9)[9 + k] == "OR"[k]; Pack(i, 171, "OR", TextRow(9)); }
  lemma Text46(i: nat) requires i == 46 ensures Packed(i)
  { PackTwo(i, 176, "UNIQ", "UE"); }
  lemma Text47(i: nat) requires i == 47 ensures Packed(i)
  { PackTwo(i, 179, "Q", "UERY"); }
  lemma Text48(i: nat) requires i == 48 ensures Packed(i)
  { assert forall k | 0 <= k < 6 :: TextRow(10)[4 + k] == "ATTACH"[k]; Pack(i, 184, "ATTACH", TextRow(10)); }
  lemma Text49(i: nat) requires i == 49 ensures Packed(i)
  { assert forall k | 0 <= k < 6 :: TextRow(10)[9 + k] == "HAVING"[k]; Pack(i, 189, "HAVING", TextRow(10)); }
  lemma Text50(i: nat) requires i == 50 ensures Packed(i)
  { PackTwo(i, 194, "GROU", "P"); }
  lemma Text51(i: nat) requires i == 51 ensures Packed(i)
  { PackTwo(i, 197, "U", "PDATE"); }
  lemma Text52(i: nat) requires i == 52 ensures Packed(i)
  { assert forall k | 0 <= k < 5 :: TextRow(11)[5 + k] == "BEGIN"[k]; Pack(i, 203, "BEGIN", TextRow(11)); }
  lemma Text53(i: nat) requires i == 53 ensures Packed(i)
  { assert forall k | 0 <= k < 5 :: TextRow(11)[8 + k] == "INNER"[k]; Pack(i, 206, "INNER", TextRow(11)); }
  lemma Text54(i: nat) requires i == 54 ensures Packed(i)
  { PackTwo(i, 210, "RELEAS", "E"); }
  lemma Text55(i: nat) requires i == 55 ensures Packed(i)
  { assert forall k | 0 <= k < 7 :: TextRow(12)[1 + k] == "BETWEEN"[k]; Pack(i, 217, "BETWEEN", TextRow(12)); }
  lemma Text56(i: nat) requires i == 56 ensures Packed(i)
  { assert forall k | 0 <= k < 7 :: TextRow(12)[7 + k] == "NOTNULL"[k]; Pack(i, 223, "NOTNULL", TextRow(12)); }
  lemma Text57(i: nat) requires i == 57 ensures Packed(i)
  { assert forall k | 0 <= k < 3 :: TextRow(12)[7 + k] == "NOT"[k]; Pack(i, 223, "NOT", TextRow(12)); }
  lemma Text58(i: nat) requires i == 58 ensures Packed(i)
  { assert forall k | 0 <= k < 2 :: TextRow(12)[7 + k] == "NO"[k]; Pack(i, 223, "NO", TextRow(12)); }
  lemma Text59(i: nat) requires i == 59 ensures Packed(i)
  { assert forall k | 0 <= k < 4 :: TextRow(12)[10 + k] == "NULL"[k]; Pack(i, 226, "NULL", TextRow(12)); }
  lemma Text60(i: nat) requires i == 60 ensures Packed(i)
  { assert forall k | 0 <= k < 4 :: TextRow(12)[13 + k] == "LIKE"[k]; Pack(i, 229, "LIKE", TextRow(12)); }
  lemma Text61(i: nat) requires i == 61 ensures Packed(i)
  { PackTwo(i, 233, "C", "ASCADE"); }
  lemma Text62(i: nat) requires i == 62 ensures Packed(i)
  { assert forall k | 0 <= k < 3 :: TextRow(13)[k] == "ASC"[k]; Pack(i, 234, "ASC", TextRow(13)); }
  lemma Text63(i: nat) requires i == 63 ensures Packed(i)
  { assert forall k | 0 <= k < 6 :: TextRow(13)[4 + k] == "DELETE"[k]; Pack(i, 238, "DELETE", TextRow(13)); }
  lemma Text64(i: nat) requires i == 64 ensures Packed(i)
  { assert forall k | 0 <= k < 4 :: TextRow(13)[10 + k] == "CASE"[k]; Pack(i, 244, "CASE", TextRow(13)); }
  lemma Text65(i: nat) requires i == 65 ensures Packed(i)
  { PackTwo(i, 248, "COLL", "ATE"); }
  lemma Text66(i: nat) requires i == 66 ensures Packed(i)
  { assert forall k | 0 <= k < 6 :: TextRow(14)[3 + k] == "CREATE"[k]; Pack(i, 255, "CREATE", TextRow(14)); }
  lemma Text67(i: nat) requires i == 67 ensures Packed(i)
  { PackTwo(i, 261, "CURRENT_D", "ATE"); }
  lemma Text68(i: nat) requires i == 68 ensures Packed(i)
  { assert forall k | 0 <= k < 6 :: TextRow(15)[3 + k] == "DETACH"[k]; Pack(i, 273, "DETACH", TextRow(15)); }
  lemma Text69(i: nat) requires i == 69 ensures Packed(i)
  { assert forall k | 0 <= k < 9 :: TextRow(15)[9 + k] == "IMMEDIATE"[k]; Pack(i, 279, "IMMEDIATE", TextRow(15)); }
  lemma Text70(i: nat) requires i == 70 ensures Packed(i)
  { assert forall k | 0 <= k < 4 :: TextRow(16)[k] == "JOIN"[k]; Pack(i, 288, "JOIN", TextRow(16)); }
  lemma Text71(i: nat) requires i == 71 ensures Packed(i)
  { assert forall k | 0 <= k < 6 :: TextRow(16)[2 + k] == "INSERT"[k]; Pack(i, 290, "INSERT", TextRow(16)); }
  lemma Text72(i: nat) requires i == 72 ensures Packed(i)
  { assert forall k | 0 <= k < 5 :: TextRow(16)[8 + k] == "MATCH"[k]; Pack(i, 296, "MATCH", TextRow(16)); }
  lemma Text73(i: nat) requires i == 73 ensures Packed(i)
  { assert forall k | 0 <= k < 4 :: TextRow(16)[13 + k] == "PLAN"[k]; Pack(i, 301, "PLAN", TextRow(16)); }
  lemma Text74(i: nat) requires i == 74 ensures Packed(i)
  { PackTwo(i, 303, "ANA", "LYZE"); }
  lemma Text75(i: nat) requires i == 75 ensures Packed(i)
  { assert forall k | 0 <= k < 6 :: TextRow(17)[4 + k] == "PRAGMA"[k]; Pack(i, 310, "PRAGMA", TextRow(17)); }
  lemma Text76(i: nat) requires i == 76 ensures Packed(i)
  { assert forall k | 0 <= k < 5 :: TextRow(17)[9 + k] == "ABORT"[k]; Pack(i, 315, "ABORT", TextRow(17)); }
  lemma Text77(i: nat) requires i == 77 ensures Packed(i)
  { PackTwo(i, 320, "VALU", "ES"); }
  lemma Text78(i: nat) requires i == 78 ensures Packed(i)
  { assert forall k | 0 <= k < 7 :: TextRow(18)[2 + k] == "VIRTUAL"[k]; Pack(i, 326, "VIRTUAL", TextRow(18)); }
  lemma Text79(i: nat) requires i == 79 ensures Packed(i)
  { assert forall k | 0 <= k < 5 :: TextRow(18)[8 + k] == "LIMIT"[k]; Pack(i, 332, "LIMIT", TextRow(18)); }
  lemma Text80(i: nat) requires i == 80 ensures Packed(i)
  { assert forall k | 0 <= k < 4 :: TextRow(18)[13 + k] == "WHEN"[k]; Pack(i, 337, "WHEN", TextRow(18)); }
  lemma Text81(i: nat) requires i == 81 ensures Packed(i)
  { PackTwo(i, 341, "W", "HERE"); }
  lemma Text82(i: nat) requires i == 82 ensures Packed(i)
  { assert forall k | 0 <= k < 6 :: TextRow(19)[2 + k] == "RENAME"[k]; Pack(i, 344, "RENAME", TextRow(19)); }
  lemma Text83(i: nat) requires i == 83 ensures Packed(i)
  { assert forall k | 0 <= k < 5 :: TextRow(19)[8 + k] == "AFTER"[k]; Pack(i, 350, "AFTER", TextRow(19)); }
  lemma Text84(i: nat) requires i == 84 ensures Packed(i)
  { PackTwo(i, 354, "REPLAC", "E"); }
  lemma Text85(i: nat) requires i == 85 ensures Packed(i)
  { assert forall k | 0 <= k < 3 :: TextRow(20)[1 + k] == "AND"[k]; Pack(i, 361, "AND", TextRow(20)); }
  lemma Text86(i: nat) requires i == 86 ensures Packed(i)
  { assert forall k | 0 <= k < 7 :: TextRow(20)[3 + k] == "DEFAULT"[k]; Pack(i, 363, "DEFAULT", TextRow(20)); }
  lemma Text87(i: nat) requires i == 87 ensures Packed(i)
  { PackTwo(i, 370, "AUTOINCR", "EMENT"); }
  lemma Text88(i: nat) requires i == 88 ensures Packed(i)
  { assert forall k | 0 <= k < 2 :: TextRow(20)[12 + k] == "TO"[k]; Pack(i, 372, "TO", TextRow(20)); }
  lemma Text89(i: nat) requires i == 89 ensures Packed(i)
  { assert forall k | 0 <= k < 2 :: TextRow(20)[14 + k] == "IN"[k]; Pack(i, 374, "IN", TextRow(20)); }
  lemma Text90(i: nat) requires i == 90 ensures Packed(i)
  { assert forall k | 0 <= k < 4 :: TextRow(21)[5 + k] == "CAST"[k]; Pack(i, 383, "CAST", TextRow(21)); }
  lemma Text91(i: nat) requires i == 91 ensures Packed(i)
  { assert forall k | 0 <= k < 6 :: TextRow(21)[9 + k] == "COLUMN"[k]; Pack(i, 387, "COLUMN", TextRow(21)); }
  lemma Text92(i: nat) requires i == 92 ensures Packed(i)
  { PackTwo(i, 393, "COM", "MIT"); }
  lemma Text93(i: nat) requires i == 93 ensures Packed(i)
  { assert forall k | 0 <= k < 8 :: TextRow(22)[3 + k] == "CONFLICT"[k]; Pack(i, 399, "CONFLICT", TextRow(22)); }
  lemma Text94(i: nat) requires i == 94 ensures Packed(i)
  { assert forall k | 0 <= k < 5 :: TextRow(22)[11 + k] == "CROSS"[k]; Pack(i, 407, "CROSS", TextRow(22)); }
  lemma Row23()
    ensures |TextRow(23)| == 18 && forall k | 0 <= k < 15 :: "RRENT_TIMESTAMP"[k] == TextRow(23)[k]
  { assert TextRow(23) == "RRENT_TIMESTAMP" + "RIM"; }
  lemma Spelling95(i: nat) requires i == 95 ensures Spelling(i) == "CU" + "RRENT_TIMESTAMP"
  { assert Spelling(i) == "CURRENT_TIMESTAMP"; }
  lemma Text95(i: nat) requires i == 95 ensures Packed(i)
  { Row23(); Spelling95(i); PackTwo(i, 412, "CU", "RRENT_TIMESTAMP"); }
  lemma Text96(i: nat) requires i == 96 ensures Packed(i)
  { PackTwo(i, 412, "CU", "RRENT_TIME"); }
  lemma Text97(i: nat) requires i == 97 ensures Packed(i)
  { PackTwo(i, 428, "PRIM", "ARY"); }
  lemma Text98(i: nat) requires i == 98 ensures Packed(i)
  { assert forall k | 0 <= k < 8 :: TextRow(24)[3 + k] == "DEFERRED"[k]; Pack(i, 435, "DEFERRED", TextRow(24)); }
  lemma Text99(i: nat) requires i == 99 ensures Packed(i)
  { assert forall k | 0 <= k < 8 :: TextRow(24)[10 + k] == "DISTINCT"[k]; Pack(i, 442, "DISTINCT", TextRow(24)); }
  lemma Text100(i: nat) requires i == 100 ensures Packed(i)
  { assert forall k | 0 <= k < 2 :: TextRow(24)[11 + k] == "IS"[k]; Pack(i, 443, "IS", TextRow(24)); }
  lemma Text101(i: nat) requires i == 101 ensures Packed(i)
  { assert forall k | 0 <= k < 4 :: TextRow(25)[k] == "DROP"[k]; Pack(i, 450, "DROP", TextRow(25)); }
  lemma Text102(i: nat) requires i == 102 ensures Packed(i)
  { assert forall k | 0 <= k < 4 :: TextRow(25)[4 + k] == "FAIL"[k]; Pack(i, 454, "FAIL", TextRow(25)); }
  lemma Text103(i: nat) requires i == 103 ensures Packed(i)
  { assert forall k | 0 <= k < 4 :: TextRow(25)[8 + k] == "FROM"[k]; Pack(i, 458, "FROM", TextRow(25)); }
  lemma Text104(i: nat) requires i == 104 ensures Packed(i)
  { assert forall k | 0 <= k < 4 :: TextRow(25)[12 + k] == "FULL"[k]; Pack(i, 462, "FULL", TextRow(25)); }
  lemma Text105(i: nat) requires i == 105 ensures Packed(i)
  { PackTwo(i, 466, "GL", "OB"); }
  lemma Text106(i: nat) requires i == 106 ensures Packed(i)
  { assert forall k | 0 <= k < 2 :: TextRow(26)[1 + k] == "BY"[k]; Pack(i, 469, "BY", TextRow(26)); }
  lemma Text107(i: nat) requires i == 107 ensures Packed(i)
  { assert forall k | 0 <= k < 2 :: TextRow(26)[3 + k] == "IF"[k]; Pack(i, 471, "IF", TextRow(26)); }
  lemma Text108(i: nat) requires i == 108 ensures Packed(i)
  { assert forall k | 0 <= k < 6 :: TextRow(26)[5 + k] == "ISNULL"[k]; Pack(i, 473, "ISNULL", TextRow(26)); }
  lemma Text109(i: nat) requires i == 109 ensures Packed(i)
  { assert forall k | 0 <= k < 5 :: TextRow(26)[11 + k] == "ORDER"[k]; Pack(i, 479, "ORDER", TextRow(26)); }
  lemma Text110(i: nat) requires i == 110 ensures Packed(i)
  { PackTwo(i, 483, "RES", "TRICT"); }
  lemma Text111(i: nat) requires i == 111 ensures Packed(i)
  { assert forall k | 0 <= k < 5 :: TextRow(27)[5 + k] == "OUTER"[k]; Pack(i, 491, "OUTER", TextRow(27)); }
  lemma Text112(i: nat) requires i == 112 ensures Packed(i)
  { assert forall k | 0 <= k < 5 :: TextRow(27)[9 + k] == "RIGHT"[k]; Pack(i, 495, "RIGHT", TextRow(27)); }
  lemma Text113(i: nat) requires i == 113 ensures Packed(i)
  { PackTwo(i, 500, "ROLL", "BACK"); }
  lemma Text114(i: nat) requires i == 114 ensures Packed(i)
  { assert forall k | 0 <= k < 3 :: TextRow(28)[4 + k] == "ROW"[k]; Pack(i, 508, "ROW", TextRow(28)); }
  lemma Text115(i: nat) requires i == 115 ensures Packed(i)
  { assert forall k | 0 <= k < 5 :: TextRow(28)[7 + k] == "UNION"[k]; Pack(i, 511, "UNION", TextRow(28)); }
  lemma Text116(i: nat) requires i == 116 ensures Packed(i)
  { assert forall k | 0 <= k < 5 :: TextRow(28)[12 + k] == "USING"[k]; Pack(i, 516, "USING", TextRow(28)); }
  lemma Text117(i: nat) requires i == 117 ensures Packed(i)
  { PackTwo(i, 521, "V", "ACUUM"); }
  lemma Text118(i: nat) requires i == 118 ensures Packed(i)
  { assert forall k | 0 <= k < 4 :: TextRow(29)[5 + k] == "VIEW"[k]; Pack(i, 527, "VIEW", TextRow(29)); }
  lemma Text119(i: nat) requires i == 119 ensures Packed(i)
  { assert forall k | 0 <= k < 9 :: TextRow(29)[9 + k] == "INITIALLY"[k]; Pack(i, 531, "INITIALLY", TextRow(29)); }
  lemma Text120(i: nat) requires i == 120 ensures Packed(i)
  { assert forall k | 0 <= k < 3 :: TextRow(29)[14 + k] == "ALL"[k]; Pack(i, 536, "ALL", TextRow(29)); }

  lemma Hash0(i: nat) requires i == 0 ensures Hashed(i)
  { assert Xor(456, 360, 7) == 167; EndsBelow(i, 114, 120, 7, 167, 64); }
  lemma Hash1(i: nat) requires i == 1 ensures Hashed(i)
  { assert Xor(420, 300, 7) == 143; EndsBelow(i, 105, 100, 7, 143, 14); }
  lemma Hash2(i: nat) requires i == 2 ensures Hashed(i)
  { assert Xor(420, 360, 5) == 201; EndsBelow(i, 105, 120, 5, 201, 50); }
  lemma Hash3(i: nat) requires i == 3 ensures Hashed(i)
  { assert Xor(400, 297, 4) == 189; EndsBelow(i, 100, 99, 4, 189, 4); }
  lemma Hash4(i: nat) requires i == 4 ensures Hashed(i)
  { assert Xor(404, 303, 6) == 189; Ends(i, 101, 101, 6, 189); }
  lemma Hash5(i: nat) requires i == 5 ensures Hashed(i)
  { assert Xor(404, 312, 4) == 168; Ends(i, 101, 104, 4, 168); }
  lemma Hash6(i: nat) requires i == 6 ensures Hashed(i)
  { assert Xor(396, 321, 5) == 200; EndsBelow(i, 99, 107, 5, 200, 27); }
  lemma Hash7(i: nat) requires i == 7 ensures Hashed(i)
  { assert Xor(428, 363, 3) == 196; EndsBelow(i, 107, 121, 3, 196, 99); }
  lemma Hash8(i: nat) requires i == 8 ensures Hashed(i)
  { assert Xor(392, 303, 6) == 161; Ends(i, 98, 101, 6, 161); }
  lemma Hash9(i: nat) requires i == 9 ensures Hashed(i)
  { assert Xor(408, 330, 7) == 213; EndsBelow(i, 102, 110, 7, 213, 87); }
  lemma Hash10(i: nat) requires i == 10 ensures Hashed(i)
  { assert Xor(408, 342, 3) == 205; EndsBelow(i, 102, 114, 3, 205, 95); }
  lemma Hash11(i: nat) requires i == 11 ensures Hashed(i)
  { assert Xor(420, 303, 6) == 141; Ends(i, 105, 101, 6, 141); }
  lemma Hash12(i: nat) requires i == 12 ensures Hashed(i)
  { assert Xor(456, 336, 6) == 158; EndsBelow(i, 114, 112, 6, 158, 21); }
  lemma Hash13(i: nat) requires i == 13 ensures Hashed(i)
  { assert Xor(404, 330, 7) == 217; Ends(i, 101, 110, 7, 217); }
  lemma Hash14(i: nat) requires i == 14 ensures Hashed(i)
  { assert Xor(420, 300, 7) == 143; Ends(i, 105, 100, 7, 143); }
  lemma Hash15(i: nat) requires i == 15 ensures Hashed(i)
  { assert Xor(388, 300, 3) == 171; EndsBelow(i, 97, 100, 3, 171, 85); }
  lemma Hash16(i: nat) requires i == 16 ensures Hashed(i)
  { assert Xor(400, 303, 8) == 183; Ends(i, 100, 101, 8, 183); }
  lemma Hash17(i: nat) requires i == 17 ensures Hashed(i)
  { assert Xor(388, 345, 2) == 223; Ends(i, 97, 115, 2, 223); }
  lemma Hash18(i: nat) requires i == 18 ensures Hashed(i)
  { assert Xor(460, 348, 6) == 150; Ends(i, 115, 116, 6, 150); }
  lemma Hash19(i: nat) requires i == 19 ensures Hashed(i)
  { assert Xor(464, 303, 5) == 250; Ends(i, 116, 101, 5, 250); }
  lemma Hash20(i: nat) requires i == 20 ensures Hashed(i)
  { assert Xor(432, 348, 4) == 232; EndsBelow(i, 108, 116, 4, 232, 45); }
  lemma Hash21(i: nat) requires i == 21 ensures Hashed(i)
  { assert Xor(464, 330, 4) == 158; Ends(i, 116, 110, 4, 158); }
  lemma Hash22(i: nat) requires i == 22 ensures Hashed(i)
  { assert Xor(404, 300, 3) == 187; Ends(i, 101, 100, 3, 187); }
  lemma Hash23(i: nat) requires i == 23 ensures Hashed(i)
  { assert Xor(400, 303, 10) == 181; Ends(i, 100, 101, 10, 181); }
  lemma Hash24(i: nat) requires i == 24 ensures Hashed(i)
  { assert Xor(404, 303, 4) == 191; Ends(i, 101, 101, 4, 191); }
  lemma Hash25(i: nat) requires i == 25 ensures Hashed(i)
  { assert Xor(404, 348, 6) == 206; Ends(i, 101, 116, 6, 206); }
  lemma Hash26(i: nat) requires i == 26 ensures Hashed(i)
  { assert Xor(464, 330, 11) == 145; EndsBelow(i, 116, 110, 11, 145, 112); }
  lemma Hash27(i: nat) requires i == 27 ensures Hashed(i)
  { assert Xor(388, 330, 6) == 200; Ends(i, 97, 110, 6, 200); }
  lemma Hash28(i: nat) requires i == 28 ensures Hashed(i)
  { assert Xor(444, 330, 2) == 244; Ends(i, 111, 110, 2, 244); }
  lemma Hash29(i: nat) requires i == 29 ensures Hashed(i)
  { assert Xor(440, 324, 7) == 251; EndsBelow(i, 110, 108, 7, 251, 56); }
  lemma Hash30(i: nat) requires i == 30 ensures Hashed(i)
  { assert Xor(388, 342, 5) == 215; EndsBelow(i, 97, 114, 5, 215, 83); }
  lemma Hash31(i: nat) requires i == 31 ensures Hashed(i)
  { assert Xor(456, 303, 5) == 226; Ends(i, 114, 101, 5, 226); }
  lemma Hash32(i: nat) requires i == 32 ensures Hashed(i)
  { assert Xor(404, 303, 9) == 178; EndsBelow(i, 101, 101, 9, 178, 43); }
  lemma Hash33(i: nat) requires i == 33 ensures Hashed(i)
  { assert Xor(404, 345, 6) == 203; EndsBelow(i, 101, 115, 6, 203, 86); }
  lemma Hash34(i: nat) requires i == 34 ensures Hashed(i)
  { assert Xor(460, 348, 9) == 153; EndsBelow(i, 115, 116, 9, 153, 117); }
  lemma Hash35(i: nat) requires i == 35 ensures Hashed(i)
  { assert Xor(420, 348, 9) == 241; Ends(i, 105, 116, 9, 241); }
  lemma Hash36(i: nat) requires i == 36 ensures Hashed(i)
  { assert Xor(464, 342, 7) == 129; EndsBelow(i, 116, 114, 7, 129, 113); }
  lemma Hash37(i: nat) requires i == 37 ensures Hashed(i)
  { assert Xor(456, 345, 10) == 155; EndsBelow(i, 114, 115, 10, 155, 60); }
  lemma Hash38(i: nat) requires i == 38 ensures Hashed(i)
  { assert Xor(396, 348, 10) == 218; Ends(i, 99, 116, 10, 218); }
  lemma Hash39(i: nat) requires i == 39 ensures Hashed(i)
  { assert Xor(420, 333, 4) == 237; Ends(i, 105, 111, 4, 237); }
  lemma Hash40(i: nat) requires i == 40 ensures Hashed(i)
  { assert Xor(444, 348, 6) == 230; EndsBelow(i, 111, 116, 6, 230, 70); }
  lemma Hash41(i: nat) requires i == 41 ensures Hashed(i)
  { assert Xor(444, 306, 2) == 140; Ends(i, 111, 102, 2, 140); }
  lemma Hash42(i: nat) requires i == 42 ensures Hashed(i)
  { assert Xor(460, 348, 3) == 147; EndsBelow(i, 115, 116, 3, 147, 49); }
  lemma Hash43(i: nat) requires i == 43 ensures Hashed(i)
  { assert Xor(464, 363, 9) == 178; Ends(i, 116, 121, 9, 178); }
  lemma Hash44(i: nat) requires i == 44 ensures Hashed(i)
  { assert Xor(464, 336, 4) == 132; Ends(i, 116, 112, 4, 132); }
  lemma Hash45(i: nat) requires i == 45 ensures Hashed(i)
  { assert Xor(444, 342, 2) == 232; Ends(i, 111, 114, 2, 232); }
  lemma Hash46(i: nat) requires i == 46 ensures Hashed(i)
  { assert Xor(468, 303, 6) == 253; EndsBelow(i, 117, 101, 6, 253, 51); }
  lemma Hash47(i: nat) requires i == 47 ensures Hashed(i)
  { assert Xor(452, 363, 5) == 170; Ends(i, 113, 121, 5, 170); }
  lemma Hash48(i: nat) requires i == 48 ensures Hashed(i)
  { assert Xor(388, 312, 6) == 186; Ends(i, 97, 104, 6, 186); }
  lemma Hash49(i: nat) requires i == 49 ensures Hashed(i)
  { assert Xor(416, 309, 6) == 147; Ends(i, 104, 103, 6, 147); }
  lemma Hash50(i: nat) requires i == 50 ensures Hashed(i)
  { assert Xor(412, 336, 5) == 201; Ends(i, 103, 112, 5, 201); }
  lemma Hash51(i: nat) requires i == 51 ensures Hashed(i)
  { assert Xor(468, 303, 6) == 253; Ends(i, 117, 101, 6, 253); }
  lemma Hash52(i: nat) requires i == 52 ensures Hashed(i)
  { assert Xor(392, 330, 5) == 199; Ends(i, 98, 110, 5, 199); }
  lemma Hash53(i: nat) requires i == 53 ensures Hashed(i)
  { assert Xor(420, 342, 5) == 247; EndsBelow(i, 105, 114, 5, 247, 58); }
  lemma Hash54(i: nat) requires i == 54 ensures Hashed(i)
  { assert Xor(456, 303, 7) == 224; EndsBelow(i, 114, 101, 7, 224, 84); }
  lemma Hash55(i: nat) requires i == 55 ensures Hashed(i)
  { assert Xor(392, 330, 7) == 197; Ends(i, 98, 110, 7, 197); }
  lemma Hash56(i: nat) requires i == 56 ensures Hashed(i)
  { assert Xor(440, 324, 7) == 251; Ends(i, 110, 108, 7, 251); }
  lemma Hash57(i: nat) requires i == 57 ensures Hashed(i)
  { assert Xor(440, 348, 3) == 231; Ends(i, 110, 116, 3, 231); }
  lemma Hash58(i: nat) requires i == 58 ensures Hashed(i)
  { assert Xor(440, 333, 2) == 247; Ends(i, 110, 111, 2, 247); }
  lemma Hash59(i: nat) requires i == 59 ensures Hashed(i)
  { assert Xor(440, 324, 4) == 248; Ends(i, 110, 108, 4, 248); }
  lemma Hash60(i: nat) requires i == 60 ensures Hashed(i)
  { assert Xor(432, 303, 4) == 155; EndsBelow(i, 108, 101, 4, 155, 78); }
  lemma Hash61(i: nat) requires i == 61 ensures Hashed(i)
  { assert Xor(396, 303, 7) == 164; EndsBelow(i, 99, 101, 7, 164, 65); }
  lemma Hash62(i: nat) requires i == 62 ensures Hashed(i)
  { assert Xor(388, 297, 3) == 174; EndsBelow(i, 97, 99, 3, 174, 68); }
  lemma Hash63(i: nat) requires i == 63 ensures Hashed(i)
  { assert Xor(400, 303, 6) == 185; EndsBelow(i, 100, 101, 6, 185, 118); }
  lemma Hash64(i: nat) requires i == 64 ensures Hashed(i)
  { assert Xor(396, 303, 4) == 167; Ends(i, 99, 101, 4, 167); }
  lemma Hash65(i: nat) requires i == 65 ensures Hashed(i)
  { assert Xor(396, 303, 7) == 164; Ends(i, 99, 101, 7, 164); }
  lemma Hash66(i: nat) requires i == 66 ensures Hashed(i)
  { assert Xor(396, 303, 6) == 165; Ends(i, 99, 101, 6, 165); }
  lemma Hash67(i: nat) requires i == 67 ensures Hashed(i)
  { assert Xor(396, 303, 12) == 175; EndsBelow(i, 99, 101, 12, 175, 96); }
  lemma Hash68(i: nat) requires i == 68 ensures Hashed(i)
  { assert Xor(400, 312, 6) == 174; EndsBelow(i, 100, 104, 6, 174, 114); }
  lemma Hash69(i: nat) requires i == 69 ensures Hashed(i)
  { assert Xor(420, 303, 9) == 130; Ends(i, 105, 101, 9, 130); }
  lemma Hash70(i: nat) requires i == 70 ensures Hashed(i)
  { assert Xor(424, 330, 4) == 230; EndsBelow(i, 106, 110, 4, 230, 108); }
  lemma Hash71(i: nat) requires i == 71 ensures Hashed(i)
  { assert Xor(420, 348, 6) == 254; Ends(i, 105, 116, 6, 254); }
  lemma Hash72(i: nat) requires i == 72 ensures Hashed(i)
  { assert Xor(436, 312, 5) == 137; Ends(i, 109, 104, 5, 137); }
  lemma Hash73(i: nat) requires i == 73 ensures Hashed(i)
  { assert Xor(448, 330, 4) == 142; Ends(i, 112, 110, 4, 142); }
  lemma Hash74(i: nat) requires i == 74 ensures Hashed(i)
  { assert Xor(388, 303, 7) == 172; EndsBelow(i, 97, 101, 7, 172, 97); }
  lemma Hash75(i: nat) requires i == 75 ensures Hashed(i)
  { assert Xor(448, 291, 6) == 229; Ends(i, 112, 97, 6, 229); }
  lemma Hash76(i: nat) requires i == 76 ensures Hashed(i)
  { assert Xor(388, 348, 5) == 221; Ends(i, 97, 116, 5, 221); }
  lemma Hash77(i: nat) requires i == 77 ensures Hashed(i)
  { assert Xor(472, 345, 6) == 135; Ends(i, 118, 115, 6, 135); }
  lemma Hash78(i: nat) requires i == 78 ensures Hashed(i)
  { assert Xor(472, 324, 7) == 155; EndsBelow(i, 118, 108, 7, 155, 115); }
  lemma Hash79(i: nat) requires i == 79 ensures Hashed(i)
  { assert Xor(432, 348, 5) == 233; Ends(i, 108, 116, 5, 233); }
  lemma Hash80(i: nat) requires i == 80 ensures Hashed(i)
  { assert Xor(476, 330, 4) == 146; Ends(i, 119, 110, 4, 146); }
  lemma Hash81(i: nat) requires i == 81 ensures Hashed(i)
  { assert Xor(476, 303, 5) == 246; Ends(i, 119, 101, 5, 246); }
  lemma Hash82(i: nat) requires i == 82 ensures Hashed(i)
  { assert Xor(456, 303, 6) == 225; EndsBelow(i, 114, 101, 6, 225, 106); }
  lemma Hash83(i: nat) requires i == 83 ensures Hashed(i)
  { assert Xor(388, 342, 5) == 215; Ends(i, 97, 114, 5, 215); }
  lemma Hash84(i: nat) requires i == 84 ensures Hashed(i)
  { assert Xor(456, 303, 7) == 224; Ends(i, 114, 101, 7, 224); }
  lemma Hash85(i: nat) requires i == 85 ensures Hashed(i)
  { assert Xor(388, 300, 3) == 171; Ends(i, 97, 100, 3, 171); }
  lemma Hash86(i: nat) requires i == 86 ensures Hashed(i)
  { assert Xor(400, 348, 7) == 203; Ends(i, 100, 116, 7, 203); }
  lemma Hash87(i: nat) requires i == 87 ensures Hashed(i)
  { assert Xor(388, 348, 13) == 213; Ends(i, 97, 116, 13, 213); }
  lemma Hash88(i: nat) requires i == 88 ensures Hashed(i)
  { assert Xor(464, 333, 2) == 159; Ends(i, 116, 111, 2, 159); }
  lemma Hash89(i: nat) requires i == 89 ensures Hashed(i)
  { assert Xor(420, 330, 2) == 236; Ends(i, 105, 110, 2, 236); }
  lemma Hash90(i: nat) requires i == 90 ensures Hashed(i)
  { assert Xor(396, 348, 4) == 212; Ends(i, 99, 116, 4, 212); }
  lemma Hash91(i: nat) requires i == 91 ensures Hashed(i)
  { assert Xor(396, 330, 6) == 192; Ends(i, 99, 110, 6, 192); }
  lemma Hash92(i: nat) requires i == 92 ensures Hashed(i)
  { assert Xor(396, 348, 6) == 214; Ends(i, 99, 116, 6, 214); }
  lemma Hash93(i: nat) requires i == 93 ensures Hashed(i)
  { assert Xor(396, 348, 8) == 216; EndsBelow(i, 99, 116, 8, 216, 102); }
  lemma Hash94(i: nat) requires i == 94 ensures Hashed(i)
  { assert Xor(396, 345, 5) == 208; Ends(i, 99, 115, 5, 208); }
  lemma Hash95(i: nat) requires i == 95 ensures Hashed(i)
  { assert Xor(396, 336, 17) == 205; Ends(i, 99, 112, 17, 205); }
  lemma Hash96(i: nat) requires i == 96 ensures Hashed(i)
  { assert Xor(396, 303, 12) == 175; Ends(i, 99, 101, 12, 175); }
  lemma Hash97(i: nat) requires i == 97 ensures Hashed(i)
  { assert Xor(448, 363, 7) == 172; Ends(i, 112, 121, 7, 172); }
  lemma Hash98(i: nat) requires i == 98 ensures Hashed(i)
  { assert Xor(400, 300, 8) == 180; Ends(i, 100, 100, 8, 180); }
  lemma Hash99(i: nat) requires i == 99 ensures Hashed(i)
  { assert Xor(400, 348, 8) == 196; EndsBelow(i, 100, 116, 8, 196, 101); }
  lemma Hash100(i: nat) requires i == 100 ensures Hashed(i)
  { assert Xor(420, 345, 2) == 255; Ends(i, 105, 115, 2, 255); }
  lemma Hash101(i: nat) requires i == 101 ensures Hashed(i)
  { assert Xor(400, 336, 4) == 196; Ends(i, 100, 112, 4, 196); }
  lemma Hash102(i: nat) requires i == 102 ensures Hashed(i)
  { assert Xor(408, 324, 4) == 216; EndsBelow(i, 102, 108, 4, 216, 104); }
  lemma Hash103(i: nat) requires i == 103 ensures Hashed(i)
  { assert Xor(408, 327, 4) == 219; Ends(i, 102, 109, 4, 219); }
  lemma Hash104(i: nat) requires i == 104 ensures Hashed(i)
  { assert Xor(408, 324, 4) == 216; Ends(i, 102, 108, 4, 216); }
  lemma Hash105(i: nat) requires i == 105 ensures Hashed(i)
  { assert Xor(412, 294, 4) == 190; Ends(i, 103, 98, 4, 190); }
  lemma Hash106(i: nat) requires i == 106 ensures Hashed(i)
  { assert Xor(392, 363, 2) == 225; Ends(i, 98, 121, 2, 225); }
  lemma Hash107(i: nat) requires i == 107 ensures Hashed(i)
  { assert Xor(420, 306, 2) == 148; Ends(i, 105, 102, 2, 148); }
  lemma Hash108(i: nat) requires i == 108 ensures Hashed(i)
  { assert Xor(420, 324, 6) == 230; Ends(i, 105, 108, 6, 230); }
  lemma Hash109(i: nat) requires i == 109 ensures Hashed(i)
  { assert Xor(444, 342, 5) == 239; EndsBelow(i, 111, 114, 5, 239, 111); }
  lemma Hash110(i: nat) requires i == 110 ensures Hashed(i)
  { assert Xor(456, 348, 8) == 156; Ends(i, 114, 116, 8, 156); }
  lemma Hash111(i: nat) requires i == 111 ensures Hashed(i)
  { assert Xor(444, 342, 5) == 239; Ends(i, 111, 114, 5, 239); }
  lemma Hash112(i: nat) requires i == 112 ensures Hashed(i)
  { assert Xor(456, 348, 5) == 145; Ends(i, 114, 116, 5, 145); }
  lemma Hash113(i: nat) requires i == 113 ensures Hashed(i)
  { assert Xor(456, 321, 8) == 129; Ends(i, 114, 107, 8, 129); }
  lemma Hash114(i: nat) requires i == 114 ensures Hashed(i)
  { assert Xor(456, 357, 3) == 174; Ends(i, 114, 119, 3, 174); }
  lemma Hash115(i: nat) requires i == 115 ensures Hashed(i)
  { assert Xor(468, 330, 5) == 155; Ends(i, 117, 110, 5, 155); }
  lemma Hash116(i: nat) requires i == 116 ensures Hashed(i)
  { assert Xor(468, 309, 5) == 228; Ends(i, 117, 103, 5, 228); }
  lemma Hash117(i: nat) requires i == 117 ensures Hashed(i)
  { assert Xor(472, 327, 6) == 153; Ends(i, 118, 109, 6, 153); }
  lemma Hash118(i: nat) requires i == 118 ensures Hashed(i)
  { assert Xor(472, 357, 4) == 185; Ends(i, 118, 119, 4, 185); }
  lemma Hash119(i: nat) requires i == 119 ensures Hashed(i)
  { assert Xor(420, 363, 9) == 198; Ends(i, 105, 121, 9, 198); }
  lemma Hash120(i: nat) requires i == 120 ensures Hashed(i)
  { assert Xor(388, 324, 3) == 195; Ends(i, 97, 108, 3, 195); }

  lemma Unlike4To3(i: nat, j: nat) requires i == 4 && j == 3 ensures Unlike(i, j)
  { Length(i, j, "ESCAPE", "DESC"); }
  lemma Chain4(i: nat) requires i == 4 ensures Apart(i, 4, 0, 0)
  { assert Next(4) == 4 && Next(3) == 0; Unlike4To3(i, 3); }
  lemma Unlike14To1(i: nat, j: nat) requires i == 14 && j == 1 ensures Unlike(i, j)
  { Letter(i, j, "INSTEAD", "INDEXED", 2); }
  lemma Chain14(i: nat) requires i == 14 ensures Apart(i, 2, 0, 0)
  { assert Next(14) == 2 && Next(1) == 0; Unlike14To1(i, 1); }
  lemma Unlike21To12(i: nat, j: nat) requires i == 21 && j == 12 ensures Unlike(i, j)
  { Length(i, j, "THEN", "REGEXP"); }
  lemma Chain21(i: nat) requires i == 21 ensures Apart(i, 13, 0, 0)
  { assert Next(21) == 13 && Next(12) == 0; Unlike21To12(i, 12); }
  lemma Unlike27To6(i: nat, j: nat) requires i == 27 && j == 6 ensures Unlike(i, j)
  { Length(i, j, "ACTION", "CHECK"); }
  lemma Chain27(i: nat) requires i == 27 ensures Apart(i, 7, 0, 0)
  { assert Next(27) == 7 && Next(6) == 0; Unlike27To6(i, 6); }
  lemma Unlike43To32(i: nat, j: nat) requires i == 43 && j == 32 ensures Unlike(i, j)
  { Letter(i, j, "TEMPORARY", "EXCLUSIVE", 0); }
  lemma Chain43(i: nat) requires i == 43 ensures Apart(i, 33, 0, 0)
  { assert Next(43) == 33 && Next(32) == 0; Unlike43To32(i, 32); }
  lemma Unlike45To20(i: nat, j: nat) requires i == 45 && j == 20 ensures Unlike(i, j)
  { Length(i, j, "OR", "LEFT"); }
  lemma Chain45(i: nat) requires i == 45 ensures Apart(i, 21, 0, 0)
  { assert Next(45) == 21 && Next(20) == 0; Unlike45To20(i, 20); }
  lemma Unlike49To42(i: nat, j: nat) requires i == 49 && j == 42 ensures Unlike(i, j)
  { Length(i, j, "HAVING", "SET"); }
  lemma Chain49(i: nat) requires i == 49 ensures Apart(i, 43, 0, 0)
  { assert Next(49) == 43 && Next(42) == 0; Unlike49To42(i, 42); }
  lemma Unlike50To2(i: nat, j: nat) requires i == 50 && j == 2 ensures Unlike(i, j)
  { Letter(i, j, "GROUP", "INDEX", 0); }
  lemma Chain50(i: nat) requires i == 50 ensures Apart(i, 3, 0, 0)
  { assert Next(50) == 3 && Next(2) == 0; Unlike50To2(i, 2); }
  lemma Unlike51To46(i: nat, j: nat) requires i == 51 && j == 46 ensures Unlike(i, j)
  { Letter(i, j, "UPDATE", "UNIQUE", 1); }
  lemma Chain51(i: nat) requires i == 51 ensures Apart(i, 47, 0, 0)
  { assert Next(51) == 47 && Next(46) == 0; Unlike51To46(i, 46); }
  lemma Unlike56To29(i: nat, j: nat) requires i == 56 && j == 29 ensures Unlike(i, j)
  { Letter(i, j, "NOTNULL", "NATURAL", 1); }
  lemma Chain56(i: nat) requires i == 56 ensures Apart(i, 30, 0, 0)
  { assert Next(56) == 30 && Next(29) == 0; Unlike56To29(i, 29); }
  lemma Unlike58To53(i: nat, j: nat) requires i == 58 && j == 53 ensures Unlike(i, j)
  { Length(i, j, "NO", "INNER"); }
  lemma Chain58(i: nat) requires i == 58 ensures Apart(i, 54, 0, 0)
  { assert Next(58) == 54 && Next(53) == 0; Unlike58To53(i, 53); }
  lemma Unlike60To37(i: nat, j: nat) requires i == 60 && j == 37 ensures Unlike(i, j)
  { Length(i, j, "LIKE", "REFERENCES"); }
  lemma Chain60(i: nat) requires i == 60 ensures Apart(i, 38, 0, 0)
  { assert Next(60) == 38 && Next(37) == 0; Unlike60To37(i, 37); }
  lemma Unlike64To0(i: nat, j: nat) requires i == 64 && j == 0 ensures Unlike(i, j)
  { Length(i, j, "CASE", "REINDEX"); }
  lemma Chain64(i: nat) requires i == 64 ensures Apart(i, 1, 0, 0)
  { assert Next(64) == 1 && Next(0) == 0; Unlike64To0(i, 0); }
  lemma Unlike65To61(i: nat, j: nat) requires i == 65 && j == 61 ensures Unlike(i, j)
  { Letter(i, j, "COLLATE", "CASCADE", 1); }
  lemma Chain65(i: nat) requires i == 65 ensures Apart(i, 62, 0, 0)
  { assert Next(65) == 62 && Next(61) == 0; Unlike65To61(i, 61); }
  lemma Unlike68To62(i: nat, j: nat) requires i == 68 && j == 62 ensures Unlike(i, j)
  { Length(i, j, "DETACH", "ASC"); }
  lemma Chain68(i: nat) requires i == 68 ensures Apart(i, 63, 0, 0)
  { assert Next(68) == 63 && Next(62) == 0; Unlike68To62(i, 62); }
  lemma Unlike70To40(i: nat, j: nat) requires i == 70 && j == 40 ensures Unlike(i, j)
  { Length(i, j, "JOIN", "OFFSET"); }
  lemma Chain70(i: nat) requires i == 70 ensures Apart(i, 41, 0, 0)
  { assert Next(70) == 41 && Next(40) == 0; Unlike70To40(i, 40); }
  lemma Unlike78To60(i: nat, j: nat) requires i == 78 && j == 60 ensures Unlike(i, j)
  { Length(i, j, "VIRTUAL", "LIKE"); }
  lemma Unlike78To37(i: nat, j: nat) requires i == 78 && j == 37 ensures Unlike(i, j)
  { Length(i, j, "VIRTUAL", "REFERENCES"); }
  lemma Chain78(i: nat) requires i == 78 ensures Apart(i, 61, 38, 0)
  { assert Next(78) == 61 && Next(60) == 38 && Next(37) == 0; Unlike78To60(i, 60); Unlike78To37(i, 37); }
  lemma Unlike83To30(i: nat, j: nat) requires i == 83 && j == 30 ensures Unlike(i, j)
  { Letter(i, j, "AFTER", "ALTER", 1); }
  lemma Chain83(i: nat) requires i == 83 ensures Apart(i, 31, 0, 0)
  { assert Next(83) == 31 && Next(30) == 0; Unlike83To30(i, 30); }
  lemma Unlike84To54(i: nat, j: nat) requires i == 84 && j == 54 ensures Unlike(i, j)
  { Letter(i, j, "REPLACE", "RELEASE", 2); }
  lemma Chain84(i: nat) requires i == 84 ensures Apart(i, 55, 0, 0)
  { assert Next(84) == 55 && Next(54) == 0; Unlike84To54(i, 54); }
  lemma Unlike85To15(i: nat, j: nat) requires i == 85 && j == 15 ensures Unlike(i, j)
  { Letter(i, j, "AND", "ADD", 1); }
  lemma Chain85(i: nat) requires i == 85 ensures Apart(i, 16, 0, 0)
  { assert Next(85) == 16 && Next(15) == 0; Unlike85To15(i, 15); }
  lemma Unlike86To33(i: nat, j: nat) requires i == 86 && j == 33 ensures Unlike(i, j)
  { Length(i, j, "DEFAULT", "EXISTS"); }
  lemma Chain86(i: nat) requires i == 86 ensures Apart(i, 34, 0, 0)
  { assert Next(86) == 34 && Next(33) == 0; Unlike86To33(i, 33); }
  lemma Unlike87To9(i: nat, j: nat) requires i == 87 && j == 9 ensures Unlike(i, j)
  { Length(i, j, "AUTOINCREMENT", "FOREIGN"); }
  lemma Chain87(i: nat) requires i == 87 ensures Apart(i, 10, 0, 0)
  { assert Next(87) == 10 && Next(9) == 0; Unlike87To9(i, 9); }
  lemma Unlike95To10(i: nat, j: nat) requires i == 95 && j == 10 ensures Unlike(i, j)
  { Length(i, j, "CURRENT_TIMESTAMP", "FOR"); }
  lemma Chain95(i: nat) requires i == 95 ensures Apart(i, 11, 0, 0)
  { assert Next(95) == 11 && Next(10) == 0; Unlike95To10(i, 10); }
  lemma Unlike96To67(i: nat, j: nat) requires i == 96 && j == 67 ensures Unlike(i, j)
  { Letter(i, j, "CURRENT_TIME", "CURRENT_DATE", 8); }
  lemma Chain96(i: nat) requires i == 96 ensures Apart(i, 68, 0, 0)
  { assert Next(96) == 68 && Next(67) == 0; Unlike96To67(i, 67); }
  lemma Unlike97To74(i: nat, j: nat) requires i == 97 && j == 74 ensures Unlike(i, j)
  { Letter(i, j, "PRIMARY", "ANALYZE", 0); }
  lemma Chain97(i: nat) requires i == 97 ensures Apart(i, 75, 0, 0)
  { assert Next(97) == 75 && Next(74) == 0; Unlike97To74(i, 74); }
  lemma Unlike99To7(i: nat, j: nat) requires i == 99 && j == 7 ensures Unlike(i, j)
  { Length(i, j, "DISTINCT", "KEY"); }
  lemma Chain99(i: nat) requires i == 99 ensures Apart(i, 8, 0, 0)
  { assert Next(99) == 8 && Next(7) == 0; Unlike99To7(i, 7); }
  lemma Unlike101To99(i: nat, j: nat) requires i == 101 && j == 99 ensures Unlike(i, j)
  { Length(i, j, "DROP", "DISTINCT"); }
  lemma Unlike101To7(i: nat, j: nat) requires i == 101 && j == 7 ensures Unlike(i, j)
  { Length(i, j, "DROP", "KEY"); }
  lemma Chain101(i: nat) requires i == 101 ensures Apart(i, 100, 8, 0)
  { assert Next(101) == 100 && Next(99) == 8 && Next(7) == 0; Unlike101To99(i, 99); Unlike101To7(i, 7); }
  lemma Unlike102To93(i: nat, j: nat) requires i == 102 && j == 93 ensures Unlike(i, j)
  { Length(i, j, "FAIL", "CONFLICT"); }
  lemma Chain102(i: nat) requires i == 102 ensures Apart(i, 94, 0, 0)
  { assert Next(102) == 94 && Next(93) == 0; Unlike102To93(i, 93); }
  lemma Unlike104To102(i: nat, j: nat) requires i == 104 && j == 102 ensures Unlike(i, j)
  { Letter(i, j, "FULL", "FAIL", 1); }
  lemma Unlike104To93(i: nat, j: nat) requires i == 104 && j == 93 ensures Unlike(i, j)
  { Length(i, j, "FULL", "CONFLICT"); }
  lemma Chain104(i: nat) requires i == 104 ensures Apart(i, 103, 94, 0)
  { assert Next(104) == 103 && Next(102) == 94 && Next(93) == 0; Unlike104To102(i, 102); Unlike104To93(i, 93); }
  lemma Unlike106To82(i: nat, j: nat) requires i == 106 && j == 82 ensures Unlike(i, j)
  { Length(i, j, "BY", "RENAME"); }
  lemma Chain106(i: nat) requires i == 106 ensures Apart(i, 83, 0, 0)
  { assert Next(106) == 83 && Next(82) == 0; Unlike106To82(i, 82); }
  lemma Unlike108To70(i: nat, j: nat) requires i == 108 && j == 70 ensures Unlike(i, j)
  { Length(i, j, "ISNULL", "JOIN"); }
  lemma Unlike108To40(i: nat, j: nat) requires i == 108 && j == 40 ensures Unlike(i, j)
  { Letter(i, j, "ISNULL", "OFFSET", 0); }
  lemma Chain108(i: nat) requires i == 108 ensures Apart(i, 71, 41, 0)
  { assert Next(108) == 71 && Next(70) == 41 && Next(40) == 0; Unlike108To70(i, 70); Unlike108To40(i, 40); }
  lemma Unlike111To109(i: nat, j: nat) requires i == 111 && j == 109 ensures Unlike(i, j)
  { Letter(i, j, "OUTER", "ORDER", 1); }
  lemma Chain111(i: nat) requires i == 111 ensures Apart(i, 110, 0, 0)
  { assert Next(111) == 110 && Next(109) == 0; Unlike111To109(i, 109); }
  lemma Unlike112To26(i: nat, j: nat) requires i == 112 && j == 26 ensures Unlike(i, j)
  { Length(i, j, "RIGHT", "TRANSACTION"); }
  lemma Chain112(i: nat) requires i == 112 ensures Apart(i, 27, 0, 0)
  { assert Next(112) == 27 && Next(26) == 0; Unlike112To26(i, 26); }
  lemma Unlike113To36(i: nat, j: nat) requires i == 113 && j == 36 ensures Unlike(i, j)
  { Length(i, j, "ROLLBACK", "TRIGGER"); }
  lemma Chain113(i: nat) requires i == 113 ensures Apart(i, 37, 0, 0)
  { assert Next(113) == 37 && Next(36) == 0; Unlike113To36(i, 36); }
  lemma Unlike114To68(i: nat, j: nat) requires i == 114 && j == 68 ensures Unlike(i, j)
  { Length(i, j, "ROW", "DETACH"); }
  lemma Unlike114To62(i: nat, j: nat) requires i == 114 && j == 62 ensures Unlike(i, j)
  { Letter(i, j, "ROW", "ASC", 0); }
  lemma Chain114(i: nat) requires i == 114 ensures Apart(i, 69, 63, 0)
  { assert Next(114) == 69 && Next(68) == 63 && Next(62) == 0; Unlike114To68(i, 68); Unlike114To62(i, 62); }
  lemma Unlike115To78(i: nat, j: nat) requires i == 115 && j == 78 ensures Unlike(i, j)
  { Length(i, j, "UNION", "VIRTUAL"); }
  lemma Unlike115To60(i: nat, j: nat) requires i == 115 && j == 60 ensures Unlike(i, j)
  { Length(i, j, "UNION", "LIKE"); }
  lemma Unlike115To37(i: nat, j: nat) requires i == 115 && j == 37 ensures Unlike(i, j)
  { Length(i, j, "UNION", "REFERENCES"); }
  lemma Chain115(i: nat) requires i == 115 ensures Apart(i, 79, 61, 38)
  { assert Next(115) == 79 && Next(78) == 61 && Next(60) == 38 && Next(37) == 0;
    Unlike115To78(i, 78); Unlike115To60(i, 60); Unlike115To37(i, 37); }
  lemma Unlike117To34(i: nat, j: nat) requires i == 117 && j == 34 ensures Unlike(i, j)
  { Length(i, j, "VACUUM", "SAVEPOINT"); }
  lemma Chain117(i: nat) requires i == 117 ensures Apart(i, 35, 0, 0)
  { assert Next(117) == 35 && Next(34) == 0; Unlike117To34(i, 34); }
  lemma Unlike118To63(i: nat, j: nat) requires i == 118 && j == 63 ensures Unlike(i, j)
  { Length(i, j, "VIEW", "DELETE"); }
  lemma Chain118(i: nat) requires i == 118 ensures Apart(i, 64, 0, 0)
  { assert Next(118) == 64 && Next(63) == 0; Unlike118To63(i, 63); }

  lemma AllPacked(i: nat)
    requires i < KEYWORDS
    ensures Packed(i)
  {
    if i == 0 { Text0(i); } else if i == 1 { Text1(i); } else if i == 2 { Text2(i); }
    else if i == 3 { Text3(i); } else if i == 4 { Text4(i); } else if i == 5 { Text5(i); }
    else if i == 6 { Text6(i); } else if i == 7 { Text7(i); } else if i == 8 { Text8(i); }
    else if i == 9 { Text9(i); } else if i == 10 { Text10(i); } else if i == 11 { Text11(i); }
    else if i == 12 { Text12(i); } else if i == 13 { Text13(i); } else if i == 14 { Text14(i); }
    else if i == 15 { Text15(i); } else if i == 16 { Text16(i); } else if i == 17 { Text17(i); }
    else if i == 18 { Text18(i); } else if i == 19 { Text19(i); } else if i == 20 { Text20(i); }
    else if i == 21 { Text21(i); } else if i == 22 { Text22(i); } else if i == 23 { Text23(i); }
    else if i == 24 { Text24(i); } else if i == 25 { Text25(i); } else if i == 26 { Text26(i); }
    else if i == 27 { Text27(i); } else if i == 28 { Text28(i); } else if i == 29 { Text29(i); }
    else if i == 30 { Text30(i); } else if i == 31 { Text31(i); } else if i == 32 { Text32(i); }
    else if i == 33 { Text33(i); } else if i == 34 { Text34(i); } else if i == 35 { Text35(i); }
    else if i == 36 { Text36(i); } else if i == 37 { Text37(i); } else if i == 38 { Text38(i); }
    else if i == 39 { Text39(i); } else if i == 40 { Text40(i); } else if i == 41 { Text41(i); }
    else if i == 42 { Text42(i); } else if i == 43 { Text43(i); } else if i == 44 { Text44(i); }
    else if i == 45 { Text45(i); } else if i == 46 { Text46(i); } else if i == 47 { Text47(i); }
    else if i == 48 { Text48(i); } else if i == 49 { Text49(i); } else if i == 50 { Text50(i); }
    else if i == 51 { Text51(i); } else if i == 52 { Text52(i); } else if i == 53 { Text53(i); }
    else if i == 54 { Text54(i); } else if i == 55 { Text55(i); } else if i == 56 { Text56(i); }
    else if i == 57 { Text57(i); } else if i == 58 { Text58(i); } else if i == 59 { Text59(i); }
    else if i == 60 { Text60(i); } else if i == 61 { Text61(i); } else if i == 62 { Text62(i); }
    else if i == 63 { Text63(i); } else if i == 64 { Text64(i); } else if i == 65 { Text65(i); }
    else if i == 66 { Text66(i); } else if i == 67 { Text67(i); } else if i == 68 { Text68(i); }
    else if i == 69 { Text69(i); } else if i == 70 { Text70(i); } else if i == 71 { Text71(i); }
    else if i == 72 { Text72(i); } else if i == 73 { Text73(i); } else if i == 74 { Text74(i); }
    else if i == 75 { Text75(i); } else if i == 76 { Text76(i); } else if i == 77 { Text77(i); }
    else if i == 78 { Text78(i); } else if i == 79 { Text79(i); } else if i == 80 { Text80(i); }
    else if i == 81 { Text81(i); } else if i == 82 { Text82(i); } else if i == 83 { Text83(i); }
    else if i == 84 { Text84(i); } else if i == 85 { Text85(i); } else if i == 86 { Text86(i); }
    else if i == 87 { Text87(i); } else if i == 88 { Text88(i); } else if i == 89 { Text89(i); }
    else if i == 90 { Text90(i); } else if i == 91 { Text91(i); } else if i == 92 { Text92(i); }
    else if i == 93 { Text93(i); } else if i == 94 { Text94(i); } else if i == 95 { Text95(i); }
    else if i == 96 { Text96(i); } else if i == 97 { Text97(i); } else if i == 98 { Text98(i); }
    else if i == 99 { Text99(i); } else if i == 100 { Text100(i); } else if i == 101 { Text101(i); }
    else if i == 102 { Text102(i); } else if i == 103 { Text103(i); } else if i == 104 { Text104(i); }
    else if i == 105 { Text105(i); } else if i == 106 { Text106(i); } else if i == 107 { Text107(i); }
    else if i == 108 { Text108(i); } else if i == 109 { Text109(i); } else if i == 110 { Text110(i); }
    else if i == 111 { Text111(i); } else if i == 112 { Text112(i); } else if i == 113 { Text113(i); }
    else if i == 114 { Text114(i); } else if i == 115 { Text115(i); } else if i == 116 { Text116(i); }
    else if i == 117 { Text117(i); } else if i == 118 { Text118(i); } else if i == 119 { Text119(i); }
    else { Text120(i); }
  }

  lemma AllHashed(i: nat)
    requires i < KEYWORDS
    ensures Hashed(i)
  {
    if i == 0 { Hash0(i); } else if i == 1 { Hash1(i); } else if i == 2 { Hash2(i); }
    else if i == 3 { Hash3(i); } else if i == 4 { Hash4(i); } else if i == 5 { Hash5(i); }
    else if i == 6 { Hash6(i); } else if i == 7 { Hash7(i); } else if i == 8 { Hash8(i); }
    else if i == 9 { Hash9(i); } else if i == 10 { Hash10(i); } else if i == 11 { Hash11(i); }
    else if i == 12 { Hash12(i); } else if i == 13 { Hash13(i); } else if i == 14 { Hash14(i); }
    else if i == 15 { Hash15(i); } else if i == 16 { Hash16(i); } else if i == 17 { Hash17(i); }
    else if i == 18 { Hash18(i); } else if i == 19 { Hash19(i); } else if i == 20 { Hash20(i); }
    else if i == 21 { Hash21(i); } else if i == 22 { Hash22(i); } else if i == 23 { Hash23(i); }
    else if i == 24 { Hash24(i); } else if i == 25 { Hash25(i); } else if i == 26 { Hash26(i); }
    else if i == 27 { Hash27(i); } else if i == 28 { Hash28(i); } else if i == 29 { Hash29(i); }
    else if i == 30 { Hash30(i); } else if i == 31 { Hash31(i); } else if i == 32 { Hash32(i); }
    else if i == 33 { Hash33(i); } else if i == 34 { Hash34(i); } else if i == 35 { Hash35(i); }
    else if i == 36 { Hash36(i); } else if i == 37 { Hash37(i); } else if i == 38 { Hash38(i); }
    else if i == 39 { Hash39(i); } else if i == 40 { Hash40(i); } else if i == 41 { Hash41(i); }
    else if i == 42 { Hash42(i); } else if i == 43 { Hash43(i); } else if i == 44 { Hash44(i); }
    else if i == 45 { Hash45(i); } else if i == 46 { Hash46(i); } else if i == 47 { Hash47(i); }
    else if i == 48 { Hash48(i); } else if i == 49 { Hash49(i); } else if i == 50 { Hash50(i); }
    else if i == 51 { Hash51(i); } else if i == 52 { Hash52(i); } else if i == 53 { Hash53(i); }
    else if i == 54 { Hash54(i); } else if i == 55 { Hash55(i); } else if i == 56 { Hash56(i); }
    else if i == 57 { Hash57(i); } else if i == 58 { Hash58(i); } else if i == 59 { Hash59(i); }
    else if i == 60 { Hash60(i); } else if i == 61 { Hash61(i); } else if i == 62 { Hash62(i); }
    else if i == 63 { Hash63(i); } else if i == 64 { Hash64(i); } else if i == 65 { Hash65(i); }
    else if i == 66 { Hash66(i); } else if i == 67 { Hash67(i); } else if i == 68 { Hash68(i); }
    else if i == 69 { Hash69(i); } else if i == 70 { Hash70(i); } else if i == 71 { Hash71(i); }
    else if i == 72 { Hash72(i); } else if i == 73 { Hash73(i); } else if i == 74 { Hash74(i); }
    else if i == 75 { Hash75(i); } else if i == 76 { Hash76(i); } else if i == 77 { Hash77(i); }
    else if i == 78 { Hash78(i); } else if i == 79 { Hash79(i); } else if i == 80 { Hash80(i); }
    else if i == 81 { Hash81(i); } else if i == 82 { Hash82(i); } else if i == 83 { Hash83(i); }
    else if i == 84 { Hash84(i); } else if i == 85 { Hash85(i); } else if i == 86 { Hash86(i); }
    else if i == 87 { Hash87(i); } else if i == 88 { Hash88(i); } else if i == 89 { Hash89(i); }
    else if i == 90 { Hash90(i); } else if i == 91 { Hash91(i); } else if i == 92 { Hash92(i); }
    else if i == 93 { Hash93(i); } else if i == 94 { Hash94(i); } else if i == 95 { Hash95(i); }
    else if i == 96 { Hash96(i); } else if i == 97 { Hash97(i); } else if i == 98 { Hash98(i); }
    else if i == 99 { Hash99(i); } else if i == 100 { Hash100(i); } else if i == 101 { Hash101(i); }
    else if i == 102 { Hash102(i); } else if i == 103 { Hash103(i); } else if i == 104 { Hash104(i); }
    else if i == 105 { Hash105(i); } else if i == 106 { Hash106(i); } else if i == 107 { Hash107(i); }
    else if i == 108 { Hash108(i); } else if i == 109 { Hash109(i); } else if i == 110 { Hash110(i); }
    else if i == 111 { Hash111(i); } else if i == 112 { Hash112(i); } else if i == 113 { Hash113(i); }
    else if i == 114 { Hash114(i); } else if i == 115 { Hash115(i); } else if i == 116 { Hash116(i); }
    else if i == 117 { Hash117(i); } else if i == 118 { Hash118(i); } else if i == 119 { Hash119(i); }
    else { Hash120(i); }
  }

  lemma ApartRow0(i: nat) returns (j: nat, k: nat, l: nat)
    requires 0 <= i < 13
    ensures Apart(i, j, k, l)
  {
    j, k, l := 0, 0, 0;
    if i == 4 {
      Chain4(i);
      j, k, l := 4, 0, 0;
    } else {
      assert i / 13 == 0;
    }
  }

  lemma ApartRow1(i: nat) returns (j: nat, k: nat, l: nat)
    requires 13 <= i < 26
    ensures Apart(i, j, k, l)
  {
    j, k, l := 0, 0, 0;
    if i == 14 {
      Chain14(i);
      j, k, l := 2, 0, 0;
    } else if i == 21 {
      Chain21(i);
      j, k, l := 13, 0, 0;
    } else {
      assert i / 13 == 1;
    }
  }

  lemma ApartRow2(i: nat) returns (j: nat, k: nat, l: nat)
    requires 26 <= i < 39
    ensures Apart(i, j, k, l)
  {
    j, k, l := 0, 0, 0;
    if i == 27 {
      Chain27(i);
      j, k, l := 7, 0, 0;
    } else {
      assert i / 13 == 2;
    }
  }

  lemma ApartRow3(i: nat) returns (j: nat, k: nat, l: nat)
    requires 39 <= i < 52
    ensures Apart(i, j, k, l)
  {
    j, k, l := 0, 0, 0;
    if i == 43 {
      Chain43(i);
      j, k, l := 33, 0, 0;
    } else if i == 45 {
      Chain45(i);
      j, k, l := 21, 0, 0;
    } else if i == 49 {
      Chain49(i);
      j, k, l := 43, 0, 0;
    } else if i == 50 {
      Chain50(i);
      j, k, l := 3, 0, 0;
    } else if i == 51 {
      Chain51(i);
      j, k, l := 47, 0, 0;
    } else {
      assert i / 13 == 3;
    }
  }

  lemma ApartRow4(i: nat) returns (j: nat, k: nat, l: nat)
    requires 52 <= i < 65
    ensures Apart(i, j, k, l)
  {
    j, k, l := 0, 0, 0;
    if i == 56 {
      Chain56(i);
      j, k, l := 30, 0, 0;
    } else if i == 58 {
      Chain58(i);
      j, k, l := 54, 0, 0;
    } else if i == 60 {
      Chain60(i);
      j, k, l := 38, 0, 0;
    } else if i == 64 {
      Chain64(i);
      j, k, l := 1, 0, 0;
    } else {
      assert i / 13 == 4;
    }
  }

  lemma ApartRow5(i: nat) returns (j: nat, k: nat, l: nat)
    requires 65 <= i < 78
    ensures Apart(i, j, k, l)
  {
    j, k, l := 0, 0, 0;
    if i == 65 {
      Chain65(i);
      j, k, l := 62, 0, 0;
    } else if i == 68 {
      Chain68(i);
      j, k, l := 63, 0, 0;
    } else if i == 70 {
      Chain70(i);
      j, k, l := 41, 0, 0;
    } else {
      assert i / 13 == 5;
    }
  }

  lemma ApartRow6(i: nat) returns (j: nat, k: nat, l: nat)
    requires 78 <= i < 91
    ensures Apart(i, j, k, l)
  {
    j, k, l := 0, 0, 0;
    if i == 78 {
      Chain78(i);
      j, k, l := 61, 38, 0;
    } else if i == 83 {
      Chain83(i);
      j, k, l := 31, 0, 0;
    } else if i == 84 {
      Chain84(i);
      j, k, l := 55, 0, 0;
    } else if i == 85 {
      Chain85(i);
      j, k, l := 16, 0, 0;
    } else if i == 86 {
      Chain86(i);
      j, k, l := 34, 0, 0;
    } else if i == 87 {
      Chain87(i);
      j, k, l := 10, 0, 0;
    } else {
      assert i / 13 == 6;
    }
  }

  lemma ApartRow7(i: nat) returns (j: nat, k: nat, l: nat)
    requires 91 <= i < 104
    ensures Apart(i, j, k, l)
  {
    j, k, l := 0, 0, 0;
    if i == 95 {
      Chain95(i);
      j, k, l := 11, 0, 0;
    } else if i == 96 {
      Chain96(i);
      j, k, l := 68, 0, 0;
    } else if i == 97 {
      Chain97(i);
      j, k, l := 75, 0, 0;
    } else if i == 99 {
      Chain99(i);
      j, k, l := 8, 0, 0;
    } else if i == 101 {
      Chain101(i);
      j, k, l := 100, 8, 0;
    } else if i == 102 {
      Chain102(i);
      j, k, l := 94, 0, 0;
    } else {
      assert i / 13 == 7;
    }
  }

  lemma ApartRow8(i: nat) returns (j: nat, k: nat, l: nat)
    requires 104 <= i < 117
    ensures Apart(i, j, k, l)
  {
    j, k, l := 0, 0, 0;
    if i == 104 {
      Chain104(i);
      j, k, l := 103, 94, 0;
    } else if i == 106 {
      Chain106(i);
      j, k, l := 83, 0, 0;
    } else if i == 108 {
      Chain108(i);
      j, k, l := 71, 41, 0;
    } else if i == 111 {
      Chain111(i);
      j, k, l := 110, 0, 0;
    } else if i == 112 {
      Chain112(i);
      j, k, l := 27, 0, 0;
    } else if i == 113 {
      Chain113(i);
      j, k, l := 37, 0, 0;
    } else if i == 114 {
      Chain114(i);
      j, k, l := 69, 63, 0;
    } else if i == 115 {
      Chain115(i);
      j, k, l := 79, 61, 38;
    } else {
      assert i / 13 == 8;
    }
  }

  lemma ApartRow9(i: nat) returns (j: nat, k: nat, l: nat)
    requires 117 <= i < 121
    ensures Apart(i, j, k, l)
  {
    j, k, l := 0, 0, 0;
    if i == 117 {
      Chain117(i);
      j, k, l := 35, 0, 0;
    } else if i == 118 {
      Chain118(i);
      j, k, l := 64, 0, 0;
    } else {
      assert i / 13 == 9;
    }
  }

  lemma AllApart(i: nat) returns (j: nat, k: nat, l: nat)
    requires i < KEYWORDS
    ensures Apart(i, j, k, l)
  {
    if i < 13 {
      j, k, l := ApartRow0(i);
    } else if i < 26 {
      j, k, l := ApartRow1(i);
    } else if i < 39 {
      j, k, l := ApartRow2(i);
    } else if i < 52 {
      j, k, l := ApartRow3(i);
    } else if i < 65 {
      j, k, l := ApartRow4(i);
    } else if i < 78 {
      j, k, l := ApartRow5(i);
    } else if i < 91 {
      j, k, l := ApartRow6(i);
    } else if i < 104 {
      j, k, l := ApartRow7(i);
    } else if i < 117 {
      j, k, l := ApartRow8(i);
    } else {
      j, k, l := ApartRow9(i);
    }
  }
}
