# A Dafny model of pg-dumpling

pg-dumpling splits PostgreSQL tables into chunks, queues them for writer
threads, and writes their rows as SQL or CSV files to storage. This project
models the inside of that program in Dafny and proves what its documentation
and code promise; `dafny verify dfyconfig.toml` checks all of it. A `char`
stands for one byte, except in `Glob`, where it is a character of a pattern.

- **Writing.** `RowText`, `CsvText`, `HexText` and `Base64Text` turn rows into
  bytes; `SqlFile` and `DataFiles` say how rows fill statements and files;
  `WriterPipe`, `Storage` and `TableWriter` are the imperative writers with their
  buffers, lazily created files and retries; `FileNames` names the files.
  `PipeProtocol` lets producer and pipe goroutine interleave freely.
- **Reading back.** `SqlLoad` and `CsvLoad` are loaders written from the SQL
  grammars of PostgreSQL and MySQL and from the CSV grammar alone; `BackslashText`
  reads MySQL literals with escapes, `Delimiting` delimited text. `DumpLoad` and
  `EndToEnd` prove that dumping and loading undo each other, from rows to rows
  and from store to rows.
- **Chunks.** `SqlExpr` parses and evaluates WHERE text in three-valued logic;
  `KeyClauses`, `KeyChunks` and `CtidChunks` prove that the generated conditions
  partition a table, and `WholeTable` that the files of all chunks together load
  as the whole table. `RowIters`, `ConcatTask` and `QueryRetry` are the readers.
- **The run.** `Snapshot` is one dump as a state machine over main thread,
  writers and server; `Consistency` is its controller, each method proved to be
  a run of that machine; `TaskQueue` is the task channel.
- **Filters.** `FilterParser`, `Glob` and `TableFilter` parse and apply table filters.

Some promises hold only under a condition, which is stated as an if-and-only-if:
numbers are written unquoted, so rows load back only when number texts are plain
(`money` is not), and CSV rows only when no bare text runs into a token; SQL for
MySQL or TiDB without the SET block loads into a session where backslashes
escape only when every backslash stands before `%` or `_`; the chunk step can
wrap to 0; an escaped blank at the end of a filter is trimmed; file names can
meet past 10^9+1 chunks of more than 10^4 files; a bare `$`, or a class that
does not end at its own bracket, changes the meaning of a wildcard pattern; and
bounds that are spelled differently but equal in value are selected twice. Where
code and comment disagree the code is followed: the clean-up on failure does not
run when only a writer failed, a cancelled dump returns no error
(`Snapshot.DropsExactly`, `Snapshot.SilentExactly`), and leaving out the SET
block, which `worklog/09-phase4c-no-preamble.md` calls safe, loses backslashes
wherever the reader takes them as escapes (`DumpLoad.BackslashNeedsTheBlock`).

## Model

| member | source | states |
|---|---|---|
| Quoting.QuoteIdent | export/dialect.go:125-137 | the quoted name is the doubled name in quotes, and the SQL scanner reads it back as the name with nothing left over |
| Quoting.EscapeStringLiteral | export/consistency.go:184-194 | the escaped text followed by a quote reads back as the text |
| Quoting.ReadQuotedIff | export/dialect.go:125-137 | the scanner of section 5.3 of ISO/IEC 9075-2 accepts exactly the doubled texts closed by a lone quote, each as itself |
| Quoting.ReplaceAllDoubles | export/sql_type.go:66-68 | replacing each quote by two is doubling the quote |
| BackslashText.EscapedReads | export/sql_type.go:66-68 | in a MySQL session where a backslash escapes, a text whose quotes alone were doubled reads back as itself exactly when each of its backslashes stands in front of a percent sign or an underscore |
| HexText.UnhexOfHex | export/dialect.go:163-165 | hexadecimal text gives back every byte string, and needs no quote doubling |
| HexText.HexOfUnhex | export/sql_type.go:232-233 | and each hexadecimal text that can be read is the text of what it is read as |
| Base64Text.Unbase64OfBase64 | export/sql_type.go:234-235 | base64 text gives back every byte string |
| Base64Text.Base64OfUnbase64 | export/sql_type.go:234-235 | and each base64 text that can be read is the text of what it is read as |
| Delimiting.DelimiterFitIff | export/sql_type.go:70-76 | doubling a delimiter of any length loses no text if and only if the delimiter does not overlap itself |
| RowText.WriteToBuffer | export/sql_type.go:134-143 | the receiver loop appends exactly the bracketed, comma-separated row |
| RowText.ValueReads | export/sql_type.go:160-226 | a column value reads back as itself in the grammar of its target, NULL apart from the empty string, exactly when it is plain: a number without quote, comma, bracket or semicolon, and, where a backslash escapes, a text that keeps its backslashes; otherwise it is refused or read as another value |
| RowText.RowReads | export/sql_type.go:134-226 | a row reads back as itself and nothing behind it is consumed, exactly when its values are plain |
| SqlFile.RestStep | export/writer_util.go:229-272 | behind each row stands a comma, or a semicolon and then the next statement or the end, as the byte counters decide |
| SqlFile.RowAdded | export/writer_util.go:239-271 | one turn of the row loop keeps the written bytes a prefix of the file they will become, with the counter equal to the bytes written |
| SqlFile.StatementOpens | export/writer_util.go:224-228 | opening a statement keeps that too |
| SqlFile.StatementsTakePrefix | export/writer_util.go:224-276 | the rows of a file are the next rows in order, at least one |
| SqlFile.StatementsNoneEmpty | export/writer_util.go:224-276 | every statement has at least one row |
| SqlFile.FileRollBounds | export/writer_util.go:114-121 | a file with a successor has reached the limit; one of several rows overshoots it by less than a prefix, its last row and two bytes |
| SqlFile.StatementRollBounds | export/writer_util.go:118-121 | the same kind of bound for every statement of a file |
| SqlFile.UnlimitedFileTakesAll | export/writer.go:263-265 | without a file limit one file takes all rows |
| SqlFile.TakenOfPart | export/writer_util.go:224-276 | how far a file reaches does not depend on rows that come after it |
| CsvText.WriteToBufferInCsv | export/sql_type.go:146-153 | the receiver loop appends the values with the separator between them |
| CsvText.WriteHeader | export/writer_util.go:359-369 | the header loop writes the names as one line of text values, or nothing |
| CsvText.LineRollBounds | export/writer_util.go:372-403 | a CSV file with a successor has reached the limit and overshoots it by less than its last line |
| DataFiles.RollBounds | export/writer_util.go:114-121 | the file roll bounds for both formats |
| DataFiles.FilesStep | export/writer.go:240-270 | the files of a chunk are the next file and then those of the rows it left |
| DataFiles.FilesOfFront | export/writer.go:240-270 | rows that break off early need no more files than all rows |
| DataFiles.NoFileIff | export/writer.go:252-254 | rows leave no file, and no error, if and only if the dump is CSV and the header and all their lines are empty |
| DataFiles.NoTerminatorLosesRows | export/writer.go:252-254 | which happens: an empty number before an empty line terminator |
| SqlLoad.InsertReads | export/writer_util.go:211-221 | the statement prefix gives back schema, table and columns for all names, read with the identifier delimiter of the target: double quotes for PostgreSQL, backquotes for MySQL and TiDB |
| SqlLoad.PreambleSets | export/dialect.go:146-214 | the SET block is read as settings, and behind it a literal is the text whose quotes were doubled: standard strings on for PostgreSQL, backslashes literal for MySQL |
| SqlLoad.BareFile | export/dialect.go:108-116 | without the SET block a file holds INSERT statements alone |
| SqlLoad.StatementsRead | export/writer_util.go:224-276 | the statements of a file give back exactly its rows, or are refused or differ when a value is not plain |
| SqlLoad.FileReads | export/writer_util.go:143-288 | one SQL file, with its SET block or without, gives back the rows it took exactly when they are plain in the grammar that holds behind the block |
| CsvLoad.TokenReads | export/sql_type.go:168-174 | a bare text is read up to its own end exactly when no token starts inside it, whatever follows |
| CsvLoad.CsvValueReads | export/sql_type.go:160-243 | a CSV value of any kind and binary format, with or without a delimiter, reads back as itself exactly when it is safe in front of what follows; otherwise it is refused or read as another value |
| CsvLoad.LineReads | export/sql_type.go:146-153 | a CSV line reads back as its row exactly when all its values are safe in front of what follows them |
| CsvLoad.HeaderReads | export/writer_util.go:359-369 | the lines of a file are reached exactly when its header is safe |
| CsvLoad.DelimitedHeaderSafe | export/writer_util.go:359-369 | which it is for all column names when there is a delimiter |
| CsvLoad.FileReads | export/writer_util.go:359-408 | one CSV file gives back the rows it took exactly when header and rows are safe |
| CsvLoad.DisjointTextIsSafe | export/sql_type.go:168-174 | texts sharing no byte with the tokens and not beginning like the delimiter are safe in front of any token |
| CsvLoad.LocalRowsDecide | export/sql_type.go:168-174 | rows that are safe by the next token alone are safe in any file, and no others are when the tokens do not occur in each other |
| CsvLoad.FreeOfTokensIsNotEnough | export/sql_type.go:168-174 | a number without any token in it can still be unsafe: one bar before a separator of two |
| DumpLoad.FilesRead | export/writer.go:240-270 | all files of a chunk in order give back its rows, both formats |
| DumpLoad.SqlDumpLoadsBack | export/writer_util.go:143-288 | dump and load: for all rows, dialects, limits and sessions of the target, the loaded rows equal the dumped ones if and only if every number is plain and, without the SET block in a session where backslashes escape, every text keeps its backslashes |
| DumpLoad.CsvDumpLoadsBack | export/writer_util.go:291-416 | the same for CSV: the loaded rows equal the dumped ones if and only if each bare text is safe in front of what follows it in its file; and safety by the next token alone suffices, and is needed when the tokens do not occur in each other |
| DumpLoad.MoneyIsNotPlain | export/sql_type.go:33-36 | a money text is typed as a number and does not load back |
| DumpLoad.BackslashNeedsTheBlock | export/config.go:655-665 | a text with a backslash loads back into such a session with the SET block and not without it, which is the default for TiDB |
| FileNames.UnescapeOfEscape | export/prepare.go:65-75 | the file name escape loses nothing |
| FileNames.EscapedIsClean | export/prepare.go:65-75 | an escaped name has no dot, slash or other byte with a meaning in paths or templates, percent signs aside, and no "-schema" in any case |
| FileNames.CleanStays | export/prepare.go:65-75 | a name stays as it is if and only if it is clean and has no percent sign |
| FileNames.DefaultNames | export/writer.go:314-346 | the names of data files for each choice of the two settings, spelled out |
| FileNames.DefaultMetaNames | export/prepare.go:24-58 | the names of schema, table, view and sequence metadata files, spelled out |
| FileNames.NameIdentifies | export/prepare.go:24-58 | a file name determines kind, schema, table, chunk and file index, file indexes below 10^4 or chunk indexes up to 10^9 |
| FileNames.NamesUnique | export/prepare.go:24-58 | two files of a run share no name while either part of the index stays within its bound |
| FileNames.NamesDistinctIff | export/writer.go:314-330 | all names of a run of so many chunks and files are distinct if and only if there are at most 10^9+1 chunks or at most 10^4 files a chunk; and the like for the two shorter index formats |
| FileNames.FilesOfChunkDiffer | export/writer.go:314-330 | within one chunk no two file indexes share a name, however large |
| FileNames.LongIndexesCollide | export/writer.go:321-323 | the first two files past both bounds share a name |
| FileNames.NamesInOrder | export/writer.go:340-348 | below 10^9 chunks of 10^4 files, byte order of a table's data names is (chunk, file) order |
| FileNames.OutputFileNamer.constructor | export/writer.go:314-330 | which index format the two settings pick, and that file indexes start at 0 |
| FileNames.OutputFileNamer.NextName | export/writer.go:344-348 | names count up through the file indexes |
| RowIters.YieldsConcatenation | export/ir_impl.go:77-116 | without a failure the stream is the concatenation of all results, otherwise a front part; and it fails exactly when some query is refused, breaks off, or fails to close before another one |
| RowIters.MultiQueriesChunkIter.constructor | export/ir_impl.go:65-75 | a new iterator has the whole stream left |
| RowIters.MultiQueriesChunkIter.NextRows | export/ir_impl.go:77-116 | empty results are skipped, and nothing but the pending rows and the pending error remains |
| RowIters.MultiQueriesChunkIter.Next | export/ir_impl.go:148-155 | one row less is left, and whether the stream fails stays |
| RowIters.MultiQueriesChunkIter.Decode | export/ir_impl.go:128-136 | what is decoded is the current row, and it fails exactly when that row cannot be converted |
| RowIters.MultiQueriesChunkIter.ErrorAtEnd | export/ir_impl.go:138-146 | at the end an error is reported exactly when the stream fails |
| RowIters.RowIter.Next | export/ir_impl.go:44-46 | the single-query iterator keeps the same contract |
| RowIters.RowIter.ErrorAtEnd | export/ir_impl.go:40-42 | and reports a result that broke off |
| RowIters.Drain | export/ir_impl.go:118-159 | reading to the end succeeds exactly when no query fails and every row can be converted, and then gives all rows |
| Storage.FileWriter.Write | export/writer_util.go:564-575 | the first write creates the file, later ones append, and no other name is touched |
| Storage.FileWriter.TearDown | export/writer_util.go:501-516 | an open file is closed, and an error exactly when that failed; a file that was never opened is left alone |
| WriterPipe.Pipe.RunStep | export/writer_util.go:68-98 | a turn of the goroutine keeps file plus queue equal to what was sent, until an error, and never loses the error |
| WriterPipe.Pipe.Send | export/writer_util.go:277-279 | a blocking send adds the buffer behind all others |
| WriterPipe.Pipe.TrySend | export/writer_util.go:253-267 | a send that is selected adds the buffer; the other cases leave the error noted |
| WriterPipe.Pipe.CloseAndWait | export/writer_util.go:280-281 | the queue is empty afterwards and nothing sent is forgotten |
| WriterPipe.Pipe.Error | export/writer_util.go:105-112 | no error means the file holds exactly what was sent |
| TableWriter.AddsRow | export/writer_util.go:229-271 | the state of file, buffer, counters and rows left after each row |
| TableWriter.WriteStatement | export/writer_util.go:229-272 | the inner loop ends with the file complete or the next statement due |
| TableWriter.WriteInsert | export/writer_util.go:143-288 | success leaves exactly the next file of the chunk in the store, closed, the rows it took gone from the iterator, and at the end no hidden iterator error; failure touches only that file, and has a cause: a failed storage operation, a cancellation or a bad row |
| TableWriter.WriteInsertInCsv | export/writer_util.go:291-416 | the same for CSV |
| TableWriter.FinishFile | export/writer_util.go:277-287 | success means all bytes handed over are in the file and the iterator had no error at its end |
| TableWriter.TryToWriteTableData | export/writer.go:232-278 | success exactly when no storage operation fails, nothing is cancelled, no query fails and every row can be converted; it leaves the store with all files of the rows, closed, and nothing else changed, and failure touches none but their names |
| TableWriter.OverwritesAll | export/writer.go:188-278 | a clean attempt over the leftovers of failed ones gives the store of a clean first attempt |
| TableWriter.WriteTableData | export/writer.go:188-230 | a nil return leaves exactly the files of one clean attempt; an error without a cancellation means that all attempts allowed, three or one, were made and that each met a failure of its own; in any case no other name is touched |
| TableWriter.Backoffer.constructor | export/retry.go:55-64 | three attempts when the connection can be rebuilt, otherwise one |
| TableWriter.Backoffer.NextBackoff | export/retry.go:72-79 | each wait uses up an attempt and doubles the delay up to 200 ms |
| EndToEnd.StoredChunkLoads | export/writer.go:188-278 | what a successful chunk left in the store is found name by name and loads as its rows, if and only if they are safe |
| PipeProtocol.StepInv | export/writer_util.go:68-112 | every step of producer, goroutine and other pool users keeps the protocol invariant |
| PipeProtocol.RunsAreSafe | export/writer_util.go:253-287 | in every interleaving: a nil return means the file holds every buffer in order and the rows had no error; pooled buffers are empty; the error channel is free when the goroutine sends |
| PipeProtocol.FailsExactly | export/writer_util.go:163-287 | over all runs: the producer returns an error if and only if a row or a write failed, the rows end in an error, or a cancellation was noticed |
| PipeProtocol.NeverStuck | export/writer_util.go:253-287 | no reachable state is deadlocked |
| PipeProtocol.MeasureFalls | export/writer_util.go:68-98 | every step of the two brings the end nearer |
| PipeProtocol.RunsEnd | export/writer_util.go:171-174 | a run has no more steps than the measure at its start |
| KeyClauses.BuildCompareClause | export/sql.go:802-825 | the loops emit exactly the clause tokens the meaning is proved about |
| KeyClauses.CompareClauseMeaning | export/sql.go:799-825 | the clause, parsed with AND binding tighter than OR, holds for exactly the keys lexicographically below (or not below) the bound |
| KeyClauses.GetCommonLength | export/sql.go:828-835 | the length of the longest common prefix |
| KeyClauses.BuildBetweenClause | export/sql.go:839-895 | the emitted tokens, over the empty, common-prefix, single-column and general cases |
| KeyClauses.BetweenClauseMeaning | export/sql.go:837-895 | the clause holds exactly for low <= key < up, if the first differing texts differ in value |
| KeyClauses.BuildWhereClauses | export/sql.go:766-789 | one clause below the first bound, one between neighbours, one from the last bound on |
| KeyClauses.WhereClausesAt | export/sql.go:766-789 | the clauses of that list, one by one, are those the selection is proved about |
| KeyClauses.EveryKeyIsSelected | export/sql.go:766-789 | for any width and non-decreasing bounds every key is selected by some clause |
| KeyClauses.NoKeySelectedTwice | export/sql.go:766-789 | and by no other, if neighbouring bounds that are spelled differently differ in value |
| KeyClauses.SpelledBoundSelectedTwice | export/sql.go:828-835 | and only then: a bound spelled twice is selected twice |
| KeyClauses.SpellingMatters | export/sql.go:828-835 | a concrete pair of bounds for which that happens |
| SqlExpr.ParseBracketed | export/sql.go:989-1012 | a condition in brackets parses as itself whatever stands behind it |
| KeyChunks.ConditionMeaning | export/sql.go:989-1012 | the combined WHERE text means user filter and chunk filter |
| KeyChunks.SendChunks | export/dump.go:542-558 | the loop sends the planned chunks in order, and exactly as many as there are or as the context lasts for |
| KeyChunks.ConcurrentDumpTable | export/dump.go:527-561 | the tasks sent are the plan for the least step that needs no more than count / rows chunks, all of them unless cancelled; with a step of 0 only a cancellation ends it |
| KeyChunks.StepIsLeast | export/dump.go:528-529 | unless it wraps to 0 the step needs no more chunks than were wanted, and every smaller step needs more |
| KeyChunks.ChunkWhereMeaning | export/dump.go:542-547 | the chunk condition holds for keys in the range, and for NULL in the first chunk when asked |
| KeyChunks.IntChunksCoverOnce | export/dump.go:528-559 | each row the unchunked query returns is returned by exactly one chunk; with a filter, rows with a NULL key by none |
| KeyChunks.StepWrapsOnlyOnce | export/dump.go:529 | the step is 0 only for a key spread of 2^64-1 and one wanted chunk |
| KeyChunks.LoopEndsIff | export/dump.go:546 | the loop ends exactly when the step is not 0 |
| KeyChunks.ChunkCountBounded | export/dump.go:528-559 | the number of chunks is at most the announced total, and when it is equal |
| KeyChunks.FinishedAtMostOnce | export/writer.go:115-122 | the finish-table callback fires at most once per table, and when it fires at all |
| CtidChunks.CtidOrder | export/dump.go:607-616 | row addresses are ordered by block and then offset |
| CtidChunks.ConcurrentDumpTableByCtid | export/dump.go:570-625 | the tasks sent are the plan, exactly the announced number unless cancelled before: for n = count / rows at least n and fewer than 2n, one a page when there are fewer pages, one when n is 0 |
| CtidChunks.CtidWhereMeaning | export/dump.go:611-616 | the condition holds for the blocks of the range, and in the last chunk for all later ones |
| CtidChunks.CtidChunksCoverOnce | export/dump.go:607-623 | each row, on a block added since the count too, is returned by exactly one chunk |
| CtidChunks.BlockChunksBounded | export/dump.go:592-603 | at least the wanted number of chunks and less than twice it, or one a page |
| WholeTable.ChunksReturnTheTable | export/dump.go:527-561 | queries that each select a row once return together, as a multiset, what the unchunked query returns |
| WholeTable.OtherChunkKeeps | export/writer.go:232-278 | whatever the writing of another chunk does, and however it ends, the files of a chunk stay as they are |
| WholeTable.IdsApart | export/writer.go:314-330 | the index format that is picked keeps every two chunks of a run apart, as a table is split only where rows are set and a chunk has a second file only where a file size is |
| WholeTable.StoredIsPresent | export/writer.go:188-230 | a chunk written without an error is in the store in full |
| WholeTable.WrittenAsAlone | export/writer.go:81-100 | however the changes of all writers are interleaved, the files of a chunk end up as if it had been written alone |
| WholeTable.AllArrive | export/writer.go:81-125 | when the task queue has come to its end without an error, every chunk is in the store in full under the names its namer gives |
| WholeTable.IntTableLoadsBack | export/dump.go:527-561 | nothing lost, nothing twice: when the writers of an integer-keyed table are done, in any interleaving, loading all its files gives exactly the records of the unchunked query |
| WholeTable.CtidTableLoadsBack | export/dump.go:570-625 | the same for a table chunked by row address |
| ConcatTask.GathersAll | export/dump.go:391-452 | in every interleaving the outcome is the producer's error; all its queries in order, if there are several of the same width; otherwise no joined task |
| ConcatTask.NeverStuck | export/dump.go:420-451 | the gathering loop never waits in vain |
| ConcatTask.MeasureFalls | export/dump.go:420-451 | and comes to an end |
| QueryRetry.BaseConn.QuerySQL | export/conn.go:32-53 | success exactly when an attempt succeeds, with the rows of the first such attempt alone, and all attempts back for the next query |
| Snapshot.StepInv | export/dump.go:99-263 | every step of main thread, writers and server keeps the invariant |
| Snapshot.RunsReadOneSnapshot | export/dump.go:99-263 | in every run every data query reads the one snapshot set up, and no DROP of the slot is issued while the replication connection is open |
| Snapshot.NoRebuildAfterTearDown | export/dump.go:182-189 | after tear-down no rebuild gets past its ping, and no session can be bound to a snapshot this dump exported |
| Snapshot.TornDownStays | export/consistency.go:142-158 | a tear-down is final |
| Snapshot.TornDownWhileDumping | export/dump.go:200-215 | over all runs: while tasks are sent and written the controller has been torn down if and only if the dump is transactional, and never before the writers have started |
| Snapshot.TearDownTwice | export/consistency.go:142-158 | a second tear-down changes nothing |
| Snapshot.DropsExactly | export/dump.go:124-133 | over all runs: the slot is dropped if and only if one was made, clean-up was asked for, and the main thread met an error of its own behind the set-up or was cancelled while sending |
| Snapshot.FailsExactly | export/dump.go:99-263 | over all runs: an error is returned if and only if the set-up failed, the main thread met an error of its own, or it waited for its writers and one of them had failed |
| Snapshot.SilentExactly | export/dump.go:240-262 | over all runs: an unfinished dump returns no error if and only if it was cancelled while sending and no writer failed |
| Snapshot.FailedDumpCanKeepSlot | export/dump.go:254-257 | so a dump can fail and keep its slot although clean-up was asked for |
| Snapshot.CancelledDumpSucceeds | export/dump.go:240-262 | and a cancelled dump can return no error and drop its slot |
| Consistency.ConsistencySnapshot.Setup | export/consistency.go:97-134 | is a run of the state machine from the start to the open dump or to an error; the snapshot published is the one of its source, and can be adopted |
| Consistency.ConsistencySnapshot.TearDown | export/consistency.go:142-158 | is such a run too: both connections are closed whatever the COMMIT says, and what they exported ends |
| Consistency.ConsistencySnapshot.OnFailure | export/consistency.go:162-173 | likewise: a DROP exactly when a slot was made and clean-up asked for, never with the connection open |
| Consistency.ConsistencySnapshot.PingContext | export/consistency.go:176-181 | an error once the connection is gone |
| Consistency.ConsistencySnapshot.Deferred | export/dump.go:124-133 | the deferred calls are a run to the return: a repeated tear-down changes nothing, and the clean-up comes behind it |
| TaskQueue.FifoStep | export/util.go:19-58 | at every step output followed by what is owed equals what was received |
| TaskQueue.EachTaskOnce | export/writer.go:81-100 | in every run tasks come out in order and to one writer each; without error or cancellation each one sent has been handled exactly once when all writers stop |
| TaskQueue.NeverStuck | export/writer.go:81-100 | while a writer is left something regular can go on, if and only if the sender has not returned an error and left an empty channel open |
| TaskQueue.MeasureFalls | export/util.go:19-58 | every step brings the end nearer |
| TableFilter.TableMatchesSchema | internal/table-filter/table_filter.go:64-81 | an accepted table is in an accepted schema, for every filter |
| TableFilter.ReversalMeansLastWins | internal/table-filter/table_filter.go:37-55 | the last argument that fits decides |
| TableFilter.CaseInsensitiveTables | internal/table-filter/compat.go:137-151 | a case-insensitive table list accepts exactly what equals an entry up to the case of ASCII letters, schemas likewise |
| TableFilter.CaseInsensitiveRules | internal/table-filter/table_filter.go:83-109 | case-insensitive rules, one by one: literals fit up to case, `*` fits everything, and regular expressions are asked behind `(?i)` |
| TableFilter.CaseInsensitiveOthers | internal/table-filter/table_filter.go:57-109 | lists of schemas and conjunctions, and asking twice changes nothing |
| TableFilter.NewTablesFilter | internal/table-filter/compat.go:154-165 | the filter accepts exactly the listed tables and the schemas of listed tables |
| TableFilter.FilterDatabases | export/block_allow_list.go:10-25 | the accepted schemas, order kept |
| TableFilter.FilterTables | export/block_allow_list.go:31-58 | whatever order the schemas come in: exactly the schemas with an accepted table, and accepted schemas without one when asked, each with its accepted tables |
| TableFilter.KeptConcat | export/block_allow_list.go:36-43 | the tables that stay are the accepted ones, each as often as listed and in that order |
| TableFilter.FilterSchemasFirst | export/prepare.go:90-96 | filtering schemas and then tables gives the same as filtering tables alone |
| Glob.ParseWildcardPattern | internal/table-filter/parser.go:206-297 | the loop builds the literal and the regular expression of the pieces read, with the same errors |
| Glob.GlobReadsIff | internal/table-filter/parser.go:206-297 | a pattern is accepted with given pieces and rest exactly when it is what they are written as, up to the end or the dot |
| Glob.BodyRun | internal/table-filter/parser.go:256-276 | a class in the emitted text ends at its own bracket exactly when it is not empty and no class name in it is closed by that bracket; otherwise it runs on to where a later class ends |
| Glob.RegexReads | internal/table-filter/parser.go:215-296 | when all classes end themselves the emitted regular expression is read back as the pieces |
| Glob.SameLanguage | internal/table-filter/parser.go:206-297 | without a bare `$` the nodes of the pieces and the glob accept the same names |
| Glob.NodesNeedLess | internal/table-filter/parser.go:206-297 | the regular expression never asks for longer names than the glob, and for shorter ones when a `$` or a class that runs on is in it |
| Glob.TranslationDiffers | internal/table-filter/parser.go:256-282 | with a bare `$` or a class that runs on the two differ on a name that is given |
| Glob.WildcardMeaning | internal/table-filter/parser.go:206-297 | for every accepted pattern: the matcher means the glob if it is a literal, or has no bare `$` and only classes that end at their own bracket; and, where no class is empty, only then |
| Glob.FastPathAgrees | internal/table-filter/parser.go:287-290 | the literal fast path matches what the expression beside it matches if and only if there is no bare `$` |
| Glob.DollarExample | internal/table-filter/parser.go:278-282 | `a$*` matches `a` and not `a$1` |
| Glob.RunOnExample | internal/table-filter/parser.go:256-276 | `[!][a]` is accepted, asks for two characters, and is emitted as one class |
| FilterParser.TableRulesParser.Parse | internal/table-filter/parser.go:32-81 | the rules of a line are appended, or its error returned |
| FilterParser.TableRulesParser.ImportFile | internal/table-filter/parser.go:299-324 | the rules of a file, up to its first bad line |
| FilterParser.ParseFilter | internal/table-filter/table_filter.go:37-55 | the filter of all arguments, in which the last one that fits decides; the lemmas below say what one more argument does to it |
| FilterParser.AddedRule | internal/table-filter/parser.go:32-81 | one more argument that is a rule: accepted is what it fits and what was accepted before, tables and schemas |
| FilterParser.NegatedRule | internal/table-filter/parser.go:42-44 | the same text behind a `!`: accepted is what was accepted before and the rule does not fit; a schema is dropped only by the table pattern `*` |
| FilterParser.SkippedLine | internal/table-filter/parser.go:33-41 | blank arguments and comments change nothing |
| FilterParser.ImportedFile | internal/table-filter/parser.go:45-51 | `@file` means what the lines of the file mean as arguments; a missing file, or one that imports another, is an error |
| FilterParser.TrimMeaning | internal/table-filter/parser.go:33 | blanks and tabs around a text are taken off, and nothing else |
| FilterParser.DroppedSchema | internal/table-filter/parser.go:42-44 | `!schema.*` drops that schema with all its tables, and nothing else |
| FilterParser.RegexPattern | internal/table-filter/parser.go:160-176 | a text between slashes is the regular expression of that text, escaped slashes included |
| FilterParser.DefaultFilter | export/config.go:784-786 | the default arguments accept the tables and schemas whose schema the system expression does not match |
| FilterParser.QuotedParses | internal/table-filter/parser.go:178-194 | a quoted name is the pattern for itself, and an empty one an error |
| FilterParser.QuotedNameIsItsOwnFilter | internal/table-filter/parser.go:160-200 | for both dialects the quoted name of a table parses exactly when neither part is empty, and accepts that table and that schema only |
| FilterParser.EscapedNameIsItsOwnFilter | internal/table-filter/parser.go:206-297 | the same for names written with backslashes: accepted exactly when the table is not empty and does not end in a blank or tab, which trimming would take |

## Left out

- DumpLoad.CsvDumpLoadsBack: is stated for tokens that are not empty and do not begin each other, and for a delimiter that is empty or does not overlap itself, holds a byte that is no digit of the binary format, and begins with a byte of no token (CsvLoad.Usable); other settings are outside the grammar of section 2 of RFC 4180.
- SqlLoad.FileReads: of a session's settings those that decide how literals and bytes are read are modelled; `ANSI_QUOTES`, which changes how MySQL reads identifiers, is taken to be off.
- Glob.WildcardMeaning: takes the characters that a class holds as opaque, and assumes that the regular-expression package accepts only texts with readable classes and does what their syntax says.
- WholeTable.AllArrive: a writer is taken to look at and change files under its own names only, which TableWriter.WriteTableData shows for one writer alone.
- Consistency.ConsistencySnapshot.Setup: connections are lost between calls of the controller, not within one; the losses within are steps of Snapshot.
- FileNames.NamesUnique: covers the default templates; user-supplied templates and compression suffixes are not modelled.
- WriterPipe.Pipe.RunStep: the goroutine's turns happen inside the producer's channel operations here; the free interleaving is PipeProtocol.
- TableWriter.WriteInsert: reads its rows through RowIters.MultiQueriesChunkIter, of which a single query is the case of one; RowIters.RowIter keeps the same contract.
- Metadata files, and the `--sql` path that takes its columns from the query.
- Byte counters are unbounded numbers; the wrap-around of 64-bit counters at 2^64 bytes per file is not modelled.
- Page numbers of ctid chunks are unbounded numbers; the overflow of the 64-bit block counter past 2^63 is not modelled.
- The table from type names to row receivers: columns come with their kind.
- `pgMigrationCast` and the select list: the server's cast semantics.
- Unicode case folding (`(?i)` matches the long s in file names, `strings.ToLower` beyond ASCII) and invalid UTF-8 in patterns.
- MySQL replication rules, column filters and `/regex/` patterns beyond where they end.
- Storage backends, compression and contexts: a store is a map whose operations may fail and leave anything under the name they were called with.
- Metrics and logging, among them the finished-size gauge on early error returns, which is reverted before the pipe goroutine has been joined.
- Catalog queries, row estimates and `pg_dump`: their results are parameters.
- `GetSuitableRows`, flag parsing, DSN and TLS set-up, and name validation, which are one branch each.
- Several dumps at once in one process, which would share the published snapshot token.
