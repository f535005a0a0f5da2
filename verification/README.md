# Dafny models of SQLCipher's bundled SQLite cores

The project models six parts of the SQLite 3.7.17 sources that SQLCipher bundles, and proves what
they promise.

* **The shared-cache mutex protocol** (`sqlcipher/src/btmutex.c`). Any number of connections compete
  for the mutexes of BtShared objects, one step per mutex operation or assignment. Proved over every
  run: `locked` tells the truth, no assert fails, the back-off only ever waits upwards, the wait-for
  graph is acyclic, and a blocked connection always leads to one that can move.
* **The LALR(1) push-down driver** (`sqlcipher/lempar.c`, instantiated in `sqlcipher/parse.c`). For any
  grammar and any tables that pass a certificate: the compressed lookup is the dense action function,
  no reduction underflows, no goto is undefined, acceptance means that the start symbol derives the
  tokens, and semantic values are conserved. With a second certificate, of LR items, the converse holds:
  what is derived is accepted, with its value. The driver itself is a class over the fixed stack array.
* **CSV, C strings and SQL quotes in the shell** (`sqlcipher/shell.c`), each writer with its reader:
  round trips, with the exact separators and texts for which they hold.
* **The keyword hash** (`sqlcipher/keywordhash.h`): a theorem for any chained tables that pass a
  certificate, and the certificate for the real tables.
* **The SQL rewriters behind ALTER TABLE ... RENAME** (`sqlcipher/src/alter.c`), for any tokenizer.
* **The database fixers** (`sqlcipher/src/attach.c`): mutually recursive walks that write into the
  parse tree.

## Files

| files | content |
|---|---|
| `BtreeMutexModel`, `BtreeMutexSafety`, `BtreeMutexTheorems` | the step system, its invariant, the guarantees |
| `BtreeMutexCalls`, `BtreeMutexInterleave` | the routines that update the fields, as steps of the system, and several connections that run them side by side |
| `LemonTables`, `LemonGrammar`, `LemonDriver` | tables and lookup, grammars and certificates, the driver as a function |
| `LemonSoundness`, `LemonTheorems`, `LemonConservation`, `LemonTermination` | its theorems |
| `LemonItems`, `LemonComplete` | the certificate of items, and that what is derived is accepted |
| `LemonParser`, `LemonExample` | the driver as a class, and small tables that pass the certificates |
| `CsvFormat`, `CsvRoundTrip`, `CsvShell`, `CsvFiles` | the CSV format, its theorems, the shell routines, there and back |
| `Quoting`, `ShellQuoting` | doubled quotes: format and theorems, and the routines on buffers |
| `Escape`, `ShellEscape` | C-string escapes: format and theorems, and the routines on buffers |
| `ChainedKeywords`, `KeywordTables`, `KeywordChecks`, `KeywordEntries`, `KeywordHash` | the hash for any tables, the real tables, what is checked of an entry, the entries one by one, the result |
| `AlterTokens`, `AlterRename` | token lists and what renaming means, the loops over the text |
| `FixerTree`, `FixerWalk`, `FixerCoverage` | parse trees and plans of a walk, the walks, what they leave out |
| `Names`, `ShellFile` | case-insensitive names, streams |

## Where the code differs from its comments

* The comment above `sqlite3BtreeEnterAll` (`sqlcipher/src/btmutex.c:182-185`) says that the mutexes
  are entered in ascending address order. The code walks `aDb` by index; the back-off in
  `sqlite3BtreeEnter` is what prevents deadlock. The model follows the code.
* The comment above the fixers (`sqlcipher/src/attach.c:443-455`) says that a reference to another
  database is reported. References in GROUP BY, ORDER BY, LIMIT and OFFSET are not visited: the view
  `SELECT 1 ORDER BY (SELECT 1 FROM other.t)` gets the return code 0 (`FixerWalk.FixOrderedBy`). The return
  code is right for whatever databases are named exactly if at every SELECT of the tree these four clauses
  hold no reference (`FixerCoverage.ViewCodeIff`, `FixerCoverage.TriggerCodeIff`).
* The comments in `sqlcipher/src/alter.c:31-35` and `sqlcipher/src/alter.c:96-99` show the new name
  unquoted. The code always writes it in double quotes, and so does the model.
* For a separator of several characters `output_csv` compares the start of the field, not the current
  position, with the separator (`sqlcipher/shell.c:637-638`). `CsvRoundTrip.SeparatorWorksIff` says which
  separators survive this.

## Model

| member | source | states |
|---|---|---|
| BtreeMutexSafety.RunInv | sqlcipher/src/btmutex.c:27-125 | the invariant about counters, `locked` flags, program points and mutex owners holds in every state of every run of any number of connections |
| BtreeMutexTheorems.LockedIsOwned | sqlcipher/src/btmutex.c:88-103 | in every reachable state `locked` holds exactly when this connection owns the BtShared mutex (except between the two halves of a lock or unlock); locked implies the right BtShared.db and wantToLock > 0; outside calls the mutex is held exactly while wantToLock > 0 |
| BtreeMutexTheorems.MutualExclusion | sqlcipher/src/btmutex.c:130-138 | two connections in client code never both have wantToLock > 0 on one BtShared: the counter makes a non-recursive mutex recursive |
| BtreeMutexTheorems.NoAssertFails | sqlcipher/src/btmutex.c:75-90 | none of the asserts about mutexes, flags, counters and BtShared.db fails in any run |
| BtreeMutexTheorems.BackOff | sqlcipher/src/btmutex.c:106-124 | whoever waits in sqlite3_mutex_enter, first or in a re-lock, holds only mutexes of smaller address |
| BtreeMutexTheorems.StepKeepsSmaller | sqlcipher/src/btmutex.c:106-124 | no single step, of any connection, takes away a mutex below the Btree that is being entered |
| BtreeMutexTheorems.EnterKeepsSmaller | sqlcipher/src/btmutex.c:68-125 | during the whole of Enter(p) every smaller mutex held at its start stays held in each state |
| BtreeMutexTheorems.EnterAllHolds | sqlcipher/src/btmutex.c:187-195 | whatever others do meanwhile, on return all named sharable Btrees are held at once, every wantToLock has risen by the number of times it was named, and nothing held before is lost |
| BtreeMutexTheorems.LeaveAllReleases | sqlcipher/src/btmutex.c:196-204 | every wantToLock falls by the number of times it was named, and the mutex stays held exactly if it is still positive |
| BtreeMutexTheorems.LeaveUndoesEnter | sqlcipher/src/btmutex.c:187-204 | LeaveAll after EnterAll restores all counters and holds exactly the mutexes held before |
| BtreeMutexTheorems.WaitForAcyclic | sqlcipher/src/btmutex.c:62-66 | in no reachable state does a path of waits come back to its start |
| BtreeMutexTheorems.HolderProgresses | sqlcipher/src/btmutex.c:68-138 | a connection that holds a mutex and is not blocked has a next step, in client code the Leave of a Btree it holds |
| BtreeMutexTheorems.DeadlockFree | sqlcipher/src/btmutex.c:62-125 | if any connection is blocked, its chain of waits ends at one that is not blocked, holds a mutex and can take a step |
| BtreeMutexCalls.Connection.LockBtreeMutex | sqlcipher/src/btmutex.c:27-35 | enters the mutex, sets BtShared.db and then `locked`, which are the next three steps of the step system |
| BtreeMutexCalls.Connection.UnlockBtreeMutex | sqlcipher/src/btmutex.c:41-50 | leaves the mutex and then clears `locked`, as the next two steps |
| BtreeMutexCalls.Connection.BtreeEnter | sqlcipher/src/btmutex.c:68-125 | the updates of `wantToLock` and `locked` and the mutex operations, with both loops over pNext, are a path of the step system through one whole Enter, whether or not the first attempt gets the mutex; on return exactly this wantToLock has risen, by one, this Btree is locked, and of all Btrees those are locked that are wanted |
| BtreeMutexCalls.Connection.BtreeLeave | sqlcipher/src/btmutex.c:130-138 | the same for Leave: exactly this wantToLock falls, by one, and those Btrees are locked that are still wanted |
| BtreeMutexCalls.Connection.BtreeEnterAll | sqlcipher/src/btmutex.c:187-195 | the same for the walk over `aDb`: every wantToLock rises by the number of times it is named, and every Btree named is locked on return, although later Enters may have dropped and retaken it |
| BtreeMutexCalls.Connection.BtreeLeaveAll | sqlcipher/src/btmutex.c:196-204 | every wantToLock falls by the number of times that `aDb` names it, and those Btrees stay locked that are still wanted |
| BtreeMutexInterleave.InterleavingIsRun | sqlcipher/src/btmutex.c:52-66 | what any number of connections do by these routines, interleaved as the mutexes allow, is a run of the step system |
| BtreeMutexInterleave.SideBySide | sqlcipher/src/btmutex.c:52-138 | so, in every state of it, no assert fails, no two connections in client code want the same BtShared, and a blocked one leads to one that can go on |
| LemonTables.LookupIsDense | sqlcipher/parse.c:1569-1624 | the compressed lookup equals: exact entry, else that of the fallback, else that of the wildcard, else the default of the state; every index is in range |
| LemonSoundness.NeverStuck | sqlcipher/lempar.c:456-481 | with certified tables every reduction has enough elements and every goto it needs is defined |
| LemonSoundness.IterateSound | sqlcipher/lempar.c:756-862 | one turn of the loop keeps the invariant that the stack symbols derive the tokens read so far, each read as itself, its fallback or the wildcard |
| LemonSoundness.FeedSound | sqlcipher/lempar.c:712-864 | so does every sequence of calls, through errors, overflow and acceptance |
| LemonTheorems.AcceptanceSound | sqlcipher/parse.c:3732-3749 | whatever tokens a fresh parser is fed, every acceptance has a derivation of the start symbol from the tokens read since the last start, and reports its value |
| LemonTheorems.CleanParseDerives | sqlcipher/parse.c:3766-3918 | without an error or overflow, acceptance means that the start symbol derives exactly the tokens fed, and the accepted value is the value of that derivation |
| LemonComplete.ParseTree | sqlcipher/lempar.c:756-862 | with complete tables the iterations read exactly the tokens of a derivation that is expected, and leave its root on the stack with its value |
| LemonComplete.ParsesDerived | sqlcipher/lempar.c:712-864 | with complete tables the tokens of every derivation of the start symbol are accepted, without a syntax error, and without an overflow if the stack is as deep as the derivation needs; the value reported is that of the derivation |
| LemonComplete.LanguageIs | sqlcipher/lempar.c:712-864 | with both certificates and no fallback or wildcard, the token sequences that the parser takes with some stack depth are exactly those that the start symbol derives |
| LemonComplete.OneMeaning | sqlcipher/lempar.c:563-637 | complete tables exist only where all derivations of the same tokens have the same value |
| LemonConservation.ValuesConserved | sqlcipher/lempar.c:326-371 | over any life of a parser that ends in ParseFree, what was pushed is exactly what was consumed by reductions or destroyed, as multisets; the element whose push overflows was never on the stack |
| LemonConservation.FeedBalanced | sqlcipher/lempar.c:486-545 | replaying the recorded pushes, reductions and pops gives the live stack after every sequence of calls |
| LemonConservation.OnlyLiveStackMatters | sqlcipher/lempar.c:730-743 | two parsers with equal live stacks answer all later tokens with the same events; after acceptance or overflow a parser behaves as a fresh one |
| LemonTermination.IterateDescends | sqlcipher/lempar.c:756-862 | under a second certificate on the tables every reduction that goes on lowers a rank of the stack |
| LemonTermination.RankedHalts | sqlcipher/lempar.c:712-864 | so every call of the parser returns |
| LemonParser.Parser.constructor | sqlcipher/lempar.c:274-283 | a new parser is valid, with nothing live, whatever the stack array and the error count hold |
| LemonParser.Parser.PopParserStack | sqlcipher/lempar.c:326-348 | one element is popped and passed to its destructor |
| LemonParser.Parser.Free | sqlcipher/lempar.c:358-371 | all live elements are popped and destroyed, the topmost first |
| LemonParser.Parser.StackOverflow | sqlcipher/lempar.c:486-499 | all live elements are destroyed, and the one that did not fit is not |
| LemonParser.Parser.Shift | sqlcipher/lempar.c:504-545 | the live stack grows by one element, or overflows and empties |
| LemonParser.Parser.YyAccept | sqlcipher/lempar.c:677-691 | the stack is emptied, and the value accepted |
| LemonParser.Parser.Reduce | sqlcipher/lempar.c:563-637 | a reduction has the effect that its specification says, with and without NDEBUG: the in-place overwrite equals pop and yy_shift, which cannot overflow there |
| LemonParser.Parser.Iteration | sqlcipher/lempar.c:756-862 | one turn of the loop is one step of the specified driver |
| LemonParser.Parser.Parse | sqlcipher/lempar.c:712-864 | a call keeps the parser valid, so -1 <= yyidx < YYSTACKDEPTH and the stack derives what was read, and it does what the specified driver does |
| LemonParser.Parser.ParseAll | sqlcipher/lempar.c:712-864 | so does a sequence of calls |
| LemonExample.ExampleCertified | sqlcipher/lempar.c:100-135 | concrete tables, with and without a fallback and a wildcard, pass the certificates of soundness and termination, so these theorems are not empty |
| LemonExample.ExampleComplete | sqlcipher/lempar.c:100-135 | and that of completeness |
| LemonExample.ExampleShift | sqlcipher/parse.c:3811-3813 | the raw token is stored although the action came from its fallback |
| LemonExample.ExampleEnd | sqlcipher/lempar.c:712-864 | at the end of input these tables accept |
| CsvRoundTrip.TablesSurvive | sqlcipher/shell.c:628-657 | for a good separator, importing what was printed returns exactly the rows, with embedded quotes, separators and newlines (quoting as in section 2 of RFC 4180) |
| CsvRoundTrip.SeparatorWorksIff | sqlcipher/shell.c:637-638 | every table survives exactly if the separator does not begin with a quote, has an even number of quotes, has newlines only behind an odd number of them, and is one character long or contains a character that forces quoting |
| CsvRoundTrip.FailingTable | sqlcipher/shell.c:637-638 | for every other separator there is a table of one row that is lost |
| CsvShell.OutputCsv | sqlcipher/shell.c:628-657 | prints the field of the format, or the null value as it is for NULL, and the separator, in the two passes of the source |
| CsvShell.OutputTable | sqlcipher/shell.c:815-828 | prints the lines of the format, the names of the columns first if they are asked for, and nothing for a call without a row |
| CsvFormat.PresentLines | sqlcipher/shell.c:628-657 | where no field is NULL the null value makes no difference, and the lines are those that TablesSurvive reads back |
| CsvShell.LocalGetline | sqlcipher/shell.c:338-379 | returns the first line, where with csvFlag a newline inside quotes does not count, without newline and return, and leaves the rest; chunks of fgets do not matter. Of a chunk with a NUL only what stands before it is kept, so the line never holds one |
| CsvShell.CutLine | sqlcipher/shell.c:1944-1955 | cuts the line in place at separators outside quotes: the columns stand in the buffer as C strings, in order and without overlap, and the count is right |
| CsvShell.DequoteColumn | sqlcipher/shell.c:1966-1973 | dequotes a column in place and touches nothing outside it |
| CsvShell.BindColumns | sqlcipher/shell.c:1965-1976 | binds the dequoted columns, although dequoting writes into the shared buffer |
| CsvShell.ImportFile | sqlcipher/shell.c:1934-1990 | imports the rows of the format, or stops at the first line with a wrong column count or a row that the table rejects; then the table is what it was before, and otherwise all rows are added |
| CsvFormat.AllAccepted | sqlcipher/shell.c:1978-1985 | into a table that rejects nothing the import is that of TablesSurvive |
| CsvFiles.WriteThenImport | sqlcipher/shell.c:1899-1990 | a NUL-free table that is printed to a stream and imported into a table comes back, and is added to it |
| Quoting.DoubledReadsBack | sqlcipher/src/util.c:196-207 | undoubling what was doubled, up to a closing quote that is not followed by another, returns the text |
| Quoting.DequoteQuoted | sqlcipher/src/util.c:184-210 | sqlite3Dequote of a quoted text is the text |
| Quoting.QuotedIsOneTokenIff | sqlcipher/src/tokenize.c:230-256 | a quoted text is cut off as one token exactly if no further quote follows at once |
| Quoting.NestedQuotingUndone | sqlcipher/shell.c:1319-1326 | the table name that a dump quotes twice comes out of two dequotings |
| ShellQuoting.Dequote | sqlcipher/src/util.c:184-210 | in place: the buffer holds the dequoted string, its length or -1 is returned, and nothing behind the old string changes |
| ShellQuoting.GetQuotedToken | sqlcipher/src/tokenize.c:230-256 | length and type of a quoted token; unterminated text is illegal |
| ShellQuoting.AppendText | sqlcipher/shell.c:916-951 | the new string is the old one with the text, quoted if asked, in a buffer with no byte to spare |
| ShellQuoting.FillQuoted | sqlcipher/shell.c:935-943 | the filling loop ends exactly at the computed length |
| ShellQuoting.DoubledLength | sqlcipher/shell.c:922-928 | doubling adds one character for each quote |
| ShellQuoting.OutputQuotedString | sqlcipher/shell.c:508-533 | printing in runs between quotes gives the quoted literal |
| Escape.EscapeRoundTrip | sqlcipher/shell.c:538-564 | resolving what output_c_string prints between its quotes returns the bytes |
| Escape.EscapedPrintable | sqlcipher/shell.c:557-558 | everything it prints is printable |
| Escape.CompleteIff | sqlcipher/shell.c:1506-1508 | resolve_backslashes stays inside its string exactly if the string does not end with an odd number of backslashes |
| Escape.ShownReadsBackIff | sqlcipher/shell.c:1645-1651 | a value printed by `.show` can be given back to a dot command exactly if it holds no double quote |
| ShellEscape.OutputCString | sqlcipher/shell.c:538-564 | prints the escaped bytes between double quotes |
| ShellEscape.ReadLead | sqlcipher/shell.c:1507-1524 | reads one character of an escaped string and says where it ends; three octal digits keep the low eight bits |
| ShellEscape.ResolveBackslashes | sqlcipher/shell.c:1496-1523 | in place: the write index never passes the read index, the result is the resolved string, and nothing outside the string changes |
| ShellEscape.ReadArgument | sqlcipher/shell.c:1645-1651 | a quoted argument stands in the line as a string of its own, resolved if in double quotes, and the rest of the line is untouched |
| ChainedKeywords.WordsDistinct | sqlcipher/keywordhash.h:139-140 | in tables that pass the certificate no name is two keywords |
| ChainedKeywords.InBucket | sqlcipher/keywordhash.h:136-139 | every word is on the chain of its own bucket |
| ChainedKeywords.KeywordCode | sqlcipher/keywordhash.h:135-264 | the hash lookup equals a linear search over all words, for every text and length |
| KeywordHash.WordIsSpelled | sqlcipher/keywordhash.h:27-105 | the overlapping slices of zText are the 121 keywords |
| KeywordHash.TablesSound | sqlcipher/keywordhash.h:59-105 | the real tables pass the certificate |
| KeywordHash.KeywordCode | sqlcipher/keywordhash.h:267-269 | returns the code of the one keyword that the name equals up to case, and TK_ID when there is none |
| AlterTokens.ParentIff | sqlcipher/src/alter.c:121-126 | a parent is the first token that is not a space behind a REFERENCES that is not a parent itself |
| AlterTokens.NothingToRename | sqlcipher/src/alter.c:130-137 | where no parent is the old name the text does not change |
| AlterTokens.TokensTile | sqlcipher/src/alter.c:119-120 | the tokens lie one behind the other and cover the text |
| AlterTokens.RenameDetermined | sqlcipher/src/alter.c:198-224 | what is promised of the other two functions leaves one result |
| AlterRename.RenameParent | sqlcipher/src/alter.c:103-147 | the streaming loop replaces, by the quoted new name, exactly the parents that dequote to the old name up to case, and keeps every other byte in order |
| AlterRename.RenameTable | sqlcipher/src/alter.c:37-84 | the token before the first `(` or USING is replaced; null exactly if there is neither |
| AlterRename.RenameTrigger | sqlcipher/src/alter.c:161-224 | the token before the first WHEN, FOR or BEGIN whose token two back is ON or a dot and whose token one back is neither is replaced; null exactly if there is none |
| AlterRename.DistTwo | sqlcipher/src/alter.c:198-213 | the counter `dist` is 2 exactly if the token two back is ON or a dot and the two since are not |
| FixerWalk.FixItem | sqlcipher/src/attach.c:468-476 | a foreign reference stops the walk with one complaint; another one is bound |
| FixerWalk.FixSrcList | sqlcipher/src/attach.c:457-483 | visits its references in order and binds them, or stops at the first foreign one |
| FixerWalk.FixSelect | sqlcipher/src/attach.c:485-505 | the same for a SELECT and those it is compounded with |
| FixerWalk.FixExpr | sqlcipher/src/attach.c:506-523 | the same for an expression |
| FixerWalk.FixExprList | sqlcipher/src/attach.c:524-538 | the same for a list of expressions |
| FixerWalk.FixTriggerStep | sqlcipher/src/attach.c:541-558 | the same for the steps of a trigger |
| FixerWalk.FixInit | sqlcipher/src/attach.c:423-441 | a fixer for the database, but none for TEMP |
| FixerWalk.FixView | sqlcipher/src/attach.c:485-505 | returns 0 exactly if no visited reference was foreign, and then all are bound; otherwise those before the first foreign one are bound, the others unchanged, and there is one complaint about its database. The return code is ViewCode of the fields of all references of the tree. If nothing is skipped, it is 0 exactly if no reference of the whole tree was foreign, and then every one is bound |
| FixerWalk.FixTrigger | sqlcipher/src/attach.c:541-558 | the same for a trigger |
| FixerCoverage.SkipsNothingIff | sqlcipher/src/attach.c:485-523 | the walk goes through all references of a tree, in order, exactly if GROUP BY, ORDER BY, LIMIT and OFFSET hold no reference at any SELECT in it |
| FixerCoverage.StepSkipsNothingIff | sqlcipher/src/attach.c:541-558 | the same for the steps of a trigger |
| FixerCoverage.ViewCodeIff | sqlcipher/src/attach.c:485-505 | the return code for a view is right, whatever databases its references name, exactly if these clauses hold no reference at any SELECT in it |
| FixerCoverage.TriggerCodeIff | sqlcipher/src/attach.c:541-558 | the same for a trigger |
| FixerCoverage.OrderByAccepted | sqlcipher/src/attach.c:485-505 | for SELECT 1 ORDER BY (SELECT 1 FROM other.t) the return code is 0, although its one reference is foreign |
| FixerCoverage.StepOrderByAccepted | sqlcipher/src/attach.c:541-558 | the same for an INSERT of that SELECT in a trigger |
| FixerWalk.FixOrderedBy | sqlcipher/src/attach.c:485-505 | on that view the walk returns 0, reports nothing, and leaves the reference as it was |
| FixerWalk.FixInsertOrderedBy | sqlcipher/src/attach.c:541-558 | so does the walk over that trigger |

## Left out

- BtreeMutexTheorems.DeadlockFree: safety and absence of deadlock only; which waiting thread a mutex goes to, and starvation, are not modelled.
- BtreeMutexTheorems.HolderProgresses: in client code progress means that Leave may be called; that a client calls it is up to the client.
- Because other connections act between any two statements, the guarantees of the mutex protocol are proved on a step system over values; BtreeMutexCalls ties the routines of one connection to it. The fields of the Btrees stand in arrays along the pNext list; pPrev and the links themselves are not captured. `sqlite3_mutex_try` may fail at any time.
- The cursor wrappers, sqlite3SchemaMutexHeld and the single-threaded variant of the mutex routines.
- LemonComplete.ParsesDerived: for derivations in which every token is read as itself. Tables in which precedence decides between two actions, as those of parse.y, have no such certificate; for them only soundness is claimed.
- FixerCoverage.ViewCodeIff: for trees in which no two references are the same object, as the parser builds them, here and in TriggerCodeIff.
- LemonParser.Parser.Parse: for the calls that return; LemonTermination.RankedHalts gives a certificate under which all do.
- The literal entries of the parser tables and the semantic actions: tables are arbitrary, an action is any function from popped values to one value.
- The error-recovery branch with YYERRORSYMBOL, the growing stack and tracing, which this build does not have.
- CsvRoundTrip.TablesSurvive: a NULL field prints as the null value, unquoted, and cannot be told from a text when it is read, so the round trip is about fields that are not NULL; a header row would be read as a row.
- CsvShell.LocalGetline: of a text with a NUL in it only that the line has none; which characters are lost depends on where fgets ends its chunks.
- CsvShell.ImportFile: for files without NUL; whether the table rejects a row is any function of the row and the rows stored. Line numbers and messages are left out.
- ShellEscape.ResolveBackslashes: for strings that do not end in a lone backslash, where the source reads past the terminator; Escape.CompleteIff says which those are, and output_c_string prints none.
- ShellQuoting.AppendText: out of memory, and a null first argument apart from the empty string.
- AlterRename.RenameParent: for texts in which every REFERENCES is followed by a token other than a space, as in every CREATE TABLE text; otherwise the source reads past the end.
- AlterRename.RenameTable: sqlite3GetToken is any function that gives every position a token of at least one character inside the text; null arguments are left out, here and in RenameTrigger.
- KeywordHash.KeywordCode: characters are taken modulo 256, as bytes; the EBCDIC variant is left out.
- FixerWalk.FixView: the trees are values that refer to table references as objects; freeing the old database name and the wording of the complaint are left out.
- HTML and TCL output, the column layout of `.tables`, set_table_name, prompts and all other dot commands of the shell.
- attachFunc, detachFunc and codeAttach, the ALTER TABLE code generators, and all files not named above: they mostly call code outside these six parts.
