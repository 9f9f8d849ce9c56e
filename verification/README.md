# A Dafny model of pg_chdb

pg_chdb answers `COPY` to and from external storage by running chDB in a separate
`chdb_helper` process and streaming ClickHouse Native blocks between it and a Postgres
backend. This project models the parts of it that hold state, and proves what they are for.

| module | models |
|---|---|
| `Protocol`, `ProtocolSafety`, `ProtocolLiveness`, `ProtocolSuccess` | the two processes, the setup pipe, the data socket and the error pipe as one transition system: every interleaving, short reads and writes, refused writes, signals, raises, and a helper that dies at any step |
| `Helper`, `Ownership` | `src/helper.c` in its own form: `chdbHelper`, its calls, its error buffer, and the trace of what it opened, closed, forked, killed and waited for |
| `ErrorText` | what the error text means: UTF-8 after section 4 of RFC 3629, the clip, the two deletions |
| `Descriptors` | the descriptor table between fork and exec |
| `Setup` | the setup payload: printer, parser, `read_setup`, the cursor of `main` |
| `Structure` | the structure clause: its type tree, its text, and the one-pass rewrite of the text |
| `Azure` | the Azure URL parser and the printer it inverts |
| `Sink` | the sink buffer, the block cutter and the scan loop of `COPY TO` |
| `CopyRows` | what must happen to each row of a `COPY FROM`, and what that leaves behind |
| `Buffering` | the loop over such rows with the multi-insert buffer and without it, and exactly when the two are the same |
| `Insert` | the loop as the code runs it: slot pool, buffer, routing, cached trigger flags |
| `Bytes`, `Rows` | sequences, `strstr`/`strchr`; rows and column lists |

How the pieces fit: `Protocol` abstracts each blocking or engine call to one step and shows
that the two processes together keep their promises and come to an end; its helper decodes the
payload with the parser of `Setup`, whose theorems say what it can have decoded. `Helper` is a
second, separate model of the backend's half, down to buffers and descriptors, against a kernel
that answers as it likes; no simulation between the two is proved. `Insert` computes the function
`Run` of `Buffering` step by step, and the loops of `Setup` and `Structure` the functions of the
same module.

## Assumptions

- A data-channel `read` or `write` that fails with anything but `EAGAIN` or `EINTR` means that
  the helper is gone; reads of the error pipe never fail hard. Both are what the waits of
  `src/helper.c:94-99` and `src/helper.c:215-218` rely on.
- `wait_fd` is a step that changes nothing. A fair run lets each process take an uninterrupted
  step again and again.
- Callers of `chdb_helper_recv` ask for at least one byte: a read of none looks like the end.
- The engine is an arbitrary finite script of stderr text, answers and failures. DESCRIBE's
  `run_query` is COPY FROM with one chunk.
- Capacities are at least one; a channel that is not full may still refuse a write unless empty.
- In `Protocol` the command has fewer than 65536 parameters, so that every strict prefix of its
  payload is rejected (`Setup.TruncationRejected` says this bound is exact).
- Default expressions, triggers, routing, generated columns, constraints and foreign data wrappers
  are arbitrary functions of the row's number, its relation, the row, and of what the copy has put
  into tables so far. Partition constraints and row conversion, being immutable, see the row alone.
  Routing returns a partition that takes the row, and generated columns are not partition keys.
- Quoted column names carry their inner quotes doubled; parameters of a leaf type hold no
  quotes or parentheses.

## Results worth knowing

- `build_setup` accepts a payload of exactly 16 MiB (`src/helper.c:383`), `read_setup` refuses
  it (`src/helper/chdb_helper.c:56-60`): `Setup.AcceptedThenRefused`, `Setup.HandOver`.
- A parameter count of 65536 or more wraps: the payload no longer round-trips, and a strict
  prefix of it is accepted: `Setup.RoundTrip`, `Setup.ShortCountLeavesRest`.
- The multi-insert buffer is visible to a default, generated column or constraint that queries the
  copy's own table: rows waiting in the buffer are not there yet. `Buffering.NumberedApart` and
  `Buffering.NumberedAlike` give two rows that are numbered 0 and 1 without the buffer and 0 and 0
  with it. copyfrom.c refuses to buffer for such defaults; `src/native.c:606-607` says that test is
  not carried over. `Buffering.BufferMakesNoDifference` says exactly when the buffer does not show,
  and `Buffering.IgnoringTablesIsEnough` gives a condition to check before the copy. Triggers need
  none, for a target with BEFORE or INSTEAD OF triggers is not buffered (`src/native.c:736-747`).
- A Request ID line that ends a message is not deleted: stripping takes the line end that the
  deletion looks for (`src/helper.c:164-168`, `176-178`). `ErrorText.LastIdLineIsKept`;
  `ErrorText.NotesAreDeleted` has the case where more text follows.
- The text rewrite changes a type's parameters exactly when the target stands by itself inside
  them, even between apostrophes: `Structure.ParamsSurvive`, and `Structure.LabelIsChanged` for labels such as
  that of `Enum8('a UUID,b' = 1)`.
- An aborted COPY TO promises nothing about the target: `stop_helper` closes the data socket
  before it kills (`src/helper.c:141-149`), so the helper may see an ordinary end of stream and
  finish its insert. `ProtocolSafety.CopyToIntegrity` speaks of a prefix there.

## Model

| member | source | states |
|---|---|---|
| ProtocolSafety.CopyFromIntegrity | src/helper.c:485-508 | in every interleaving, crashes and raises included, the bytes received are a prefix of the engine's chunks; recv returns 0 only after all chunks up to the first empty one, with no failure and exit status 0 |
| ProtocolSafety.CopyToIntegrity | src/helper.c:510-525 | the engine has a prefix of the bytes given to chdb_helper_write, and once finish returns it has all of them, in order, chdb_stream_done reported no error and the helper exited 0 |
| ProtocolSafety.SetupIntegrity | src/helper/chdb_helper.c:343-370 | the helper, which judges by its parse of the bytes it has read alone, never acts on a payload cut short by a raise or a crash: before the engine says, takes or gives anything the payload is whole and under 16 MiB, and what is decoded is the command that was sent |
| ProtocolSafety.OnlyTheWhole | src/helper/chdb_helper.c:82-125 | of the beginnings of a payload, the take sequence accepts the whole one only, and decodes its command's direction |
| ProtocolSafety.SetupBackend | src/helper.c:328-347 | bytes read, in the pipe and still to write are always the beginning of the payload, raises included, and short of a raise all of it |
| ProtocolSafety.SetupHelper | src/helper/chdb_helper.c:48-75 | read_setup under any read sizes keeps that, and goes on only at the end of a payload that parses |
| ProtocolSafety.ErrorTextComplete | src/helper.c:122-134 | a command seen to its end without the helper being killed has read every byte of the helper's stderr |
| ProtocolSafety.NothingLeftBehind | src/helper.c:136-151 | at the end of every run the helper is dead and waited for and no channel end is held; no run kills a helper already waited for; channels never exceed their capacity |
| ProtocolSafety.InvStep | src/helper.c:302-347 | one step of either process, or a crash, keeps the whole invariant the five theorems above follow from |
| ProtocolSafety.InvExec | src/helper.c:485-525 | the invariant holds after every finite sequence of steps |
| ProtocolSafety.ControlBackend | src/helper.c:306-347 | the backend's steps keep the agreement between phases, open ends, the helper's state and `reaped` |
| ProtocolSafety.FromWireHelper | src/helper/chdb_helper.c:136-206 | bytes received, in flight and not yet written add up to the bytes the engine produced, through every helper step |
| ProtocolSafety.ToWireHelper | src/helper/chdb_helper.c:244-305 | bytes appended, held and in flight add up to the bytes sent, through every helper step |
| ProtocolSafety.ToCallerBackend | src/helper.c:510-515 | bytes sent, the current block and the blocks to come add up to the caller's blocks |
| ProtocolSafety.ErrWireBackend | src/helper.c:80-101 | draining neither loses nor repeats a byte of error text |
| ProtocolLiveness.DeadlockFree | src/helper.c:481-508 | from every reachable state that is not final, at most two plain steps lower the measure, for any capacities of at least one |
| ProtocolLiveness.StepLowers | src/helper.c:302-326 | every step of either process either changes nothing but the drain flag or lowers the measure |
| ProtocolLiveness.SomebodyReady | src/helper.c:122-134 | in every reachable state that is not final, the helper or the backend, perhaps after one drain, can take a step that counts |
| ProtocolLiveness.FairRunsEnd | src/helper.c:485-525 | every fair infinite run reaches the end of the command, well or badly, with the helper waited for |
| ProtocolSuccess.FairCopyFromSucceeds | src/helper.c:485-508 | without crashes, raises and failed calls, every fair COPY FROM ends, and it ends with zero returned and the whole stream received exactly when the engine opens, ends its stream without a failure, and the payload is under the limit |
| ProtocolSuccess.FairCopyToSucceeds | src/helper.c:510-525 | likewise every fair COPY TO to an engine that does not fail returns, with every byte appended in order and the insert stream closed |
| ProtocolSuccess.SmoothStep | src/helper.c:302-347 | in such runs no step of either process leaves the path to success: the helper does not fail, or end before its time, and nothing is reported |
| Helper.ChdbHelper.DrainErr | src/helper.c:84-101 | takes all that the pipe holds until it would block or has ended, keeps the first 4095 bytes ever read in err_buf, discards the rest, closes the pipe only at its end |
| Helper.ChdbHelper.Keep | src/helper.c:89-94 | the bytes read go behind those already kept |
| Helper.ChdbHelper.Reap | src/helper.c:103-120 | waits once, through EINTR; a second call repeats the status without a system call |
| Helper.ChdbHelper.DrainAndReap | src/helper.c:122-134 | returns the wait status only after the end of the error pipe, unless cancelled |
| Helper.ChdbHelper.Stop | src/helper.c:136-151 | from any valid state: every descriptor closed once, a child not yet waited for killed and then waited for, none killed after; a second call does nothing |
| Helper.ChdbHelper.ReadErr | src/helper.c:88-99 | one read of the error pipe takes bytes off its front, tells its end only when it is empty, and then the child need not be waited for long |
| Helper.ChdbHelper.HelperError | src/helper.c:162-191 | the in-place edits of err_buf return exactly the cleaned text of what was captured |
| Helper.ChdbHelper.DeleteSpan | src/helper.c:176-188 | strstr, strchr and memmove with the terminator delete the span from the C string in place |
| Helper.ChdbHelper.CloseGap | src/helper.c:179-180 | the memmove leaves the string without the gap and terminated |
| Helper.ChdbHelper.Report | src/helper.c:215-238 | what is raised carries the cleaned first 4095 bytes of all the helper ever says |
| Helper.ChdbHelper.WriteAll | src/helper.c:302-326 | exactly a prefix of the bytes is sent, all of them unless a cancel or a failed write stops it; no call is repeated on a channel that would block before the error pipe has been emptied |
| Helper.ChdbHelper.WriteSetup | src/helper.c:328-347 | returns normally exactly when nothing went wrong, with the whole payload sent and the pipe closed; a write refused with EPIPE reports the helper's own words, any other raises at once without waiting for it |
| Helper.ChdbHelper.Write | src/helper.c:510-515 | returns normally exactly when nothing went wrong, with all the bytes sent behind the earlier ones |
| Helper.ChdbHelper.Recv | src/helper.c:485-508 | returns the next bytes of the stream, or none once it has ended and the status is 0; anything else raises; a read that would block is repeated only once the error pipe has been emptied |
| Helper.ChdbHelper.Finish | src/helper.c:517-525 | returns normally exactly when the helper was waited for with status 0 and no cancel came |
| Helper.ChdbHelper.OpenChannels | src/helper.c:392-407 | wherever it fails, the ends opened so far are in the fields |
| Helper.ChdbHelper.Fork | src/helper.c:448-475 | wherever it fails, the channels and child it has are owned; else all are there and the helper's ends let go |
| Helper.ChdbHelper.Start | src/helper.c:409-479 | wherever it raises, what it opened and forked is owned; a payload over the limit is refused before anything is opened; on success the command's payload has been sent |
| Helper.CopyTo | src/helper.c:409-525 | a whole COPY TO and its cleanup: succeeds if and only if the payload fits and nothing failed, with all blocks sent; however it ends every descriptor is closed and the child waited for, after a kill or the end of its error pipe |
| Helper.CopyFrom | src/helper.c:409-508 | a whole COPY FROM and its cleanup, likewise: on success the bytes returned are all the helper sent |
| Helper.ReportedTextIsValid | src/helper.c:153-191 | if the helper's whole output is valid UTF-8, so is the text a raise quotes, wherever the capture was cut |
| Ownership.Balance | src/helper.c:59-65 | without misuse, a descriptor is held exactly when it was opened once more than closed, and a child is forked and waited for at most once |
| Ownership.NoKillAfterWait | src/helper.c:147-150 | without misuse nothing is killed or waited for again once waited for |
| Ownership.WaitIsShort | src/helper.c:122-151 | without misuse a child is waited for only after it was killed or the end of its error pipe was read |
| ErrorText.CleanedIsValid | src/helper.c:153-191 | any cut of a valid text stays valid UTF-8 through stripping, clipping and both deletions |
| ErrorText.ClippedPrefixIsValid | src/helper.c:169-171 | clipping a cut of a valid text ends it at a character boundary |
| ErrorText.ClipIsMaximal | src/helper.c:169-170 | the clip stops only at the end, at a NUL, or before a character that does not fit |
| ErrorText.ClipKeepsValid | src/helper.c:169-170 | the clip takes nothing off a whole valid text |
| ErrorText.CutAtAscii | src/helper.c:176-188 | a valid text may be cut before or after any ASCII byte |
| ErrorText.WithoutSpanIsValid | src/helper.c:176-188 | deleting from an ASCII mark through an ASCII stop keeps a text valid |
| ErrorText.SpanRemoved | src/helper.c:176-188 | the first mark through the next stop goes, and only that |
| ErrorText.CleanedKeepsText | src/helper.c:162-191 | a whole valid text with neither note comes through unchanged |
| ErrorText.NotesAreDeleted | src/helper.c:162-191 | of a message made of text, a Request ID line, text, a version note, text and line ends, each note there or not, exactly the texts are left |
| ErrorText.LastIdLineIsKept | src/helper.c:164-178 | a Request ID line with nothing behind it but line ends stays, without them |
| ErrorText.CStringMoved | src/helper.c:179-187 | moving the tail, terminator included, down over a span deletes the span from the C string |
| Descriptors.Process.Reserve | src/helper.c:253-262 | the file is then at a number above 3, or lost with a failed call; every other descriptor still refers to its file |
| Descriptors.Process.Place | src/helper.c:264-268 | the target then refers to the file without FD_CLOEXEC, and nothing else has changed; false exactly when the source is missing or the call fails |
| Descriptors.Process.ReserveAll | src/helper.c:277-282 | all four sources end above 3 whatever the numbers were; one is missing exactly when it was missing before or a call failed |
| Descriptors.Process.PlaceAll | src/helper.c:284-290 | no placing clobbers a source still to be placed |
| Descriptors.Process.Exec | src/helper.c:298-299 | execv keeps what is not marked FD_CLOEXEC, or fails and changes nothing |
| Descriptors.Process.ExecHelper | src/helper.c:274-300 | exits 126 exactly when a descriptor is missing or a call fails, and 127 exactly when only the exec does; otherwise 0 to 3 are then exactly the intended files of the command |
| Descriptors.BackendEndsAreGone | src/helper.c:453-459 | a file whose every descriptor is marked FD_CLOEXEC and which is not meant for the helper is open nowhere after the exec |
| Setup.RoundTrip | src/helper.c:357-390 | parsing what was built returns the command and leaves nothing, if and only if its lengths fit their prefixes |
| Setup.ParseBuild | src/helper/chdb_helper.c:343-370 | for every command, fitting or not, what the parser returns and what it leaves unread |
| Setup.ParseWhole | src/helper/chdb_helper.c:343-370 | with a count that fits nothing is left unread |
| Setup.ParseExtends | src/helper/chdb_helper.c:77-125 | an accepted payload is parsed alike whatever follows it |
| Setup.TruncationRejected | src/helper/chdb_helper.c:82-125 | every strict prefix of a payload is rejected, if and only if there are fewer than 65536 parameters |
| Setup.ShortCountLeavesRest | src/helper.c:376-377 | with 65536 parameters or more some strict prefix is accepted |
| Setup.HeaderLayout | src/setup.h:21-33 | the command and the three settings are the first seven bytes, each where the format puts it |
| Setup.StringLayout | src/setup.h:32-33 | a string is its length in four bytes and then its bytes |
| Setup.BuildSetup | src/helper.c:357-390 | the buffer appended to step by step is the payload, refused above 16 MiB |
| Setup.ReadInto | src/helper/chdb_helper.c:63-66 | one read goes behind the bytes already there, and nothing is lost between pipe and buffer |
| Setup.MakeRoom | src/helper/chdb_helper.c:56-62 | doubles a full buffer keeping its bytes, and refuses exactly at 16 MiB |
| Setup.ReadSetup | src/helper/chdb_helper.c:48-75 | whatever the sizes of the reads: the whole payload if shorter than 16 MiB, refused if not, unreadable only after a failed read |
| Setup.Cursor.NextString | src/helper/chdb_helper.c:109-125 | takes exactly one length-prefixed string off the payload, or fails when it is short |
| Setup.DecodeParams | src/helper/chdb_helper.c:361-369 | the loop over the parameters is the recursive parser, and fails exactly when it does |
| Setup.Decode | src/helper/chdb_helper.c:343-370 | the take sequence of main is the parser |
| Setup.HandOver | src/helper.c:328-347 | build, send, read under any chunking, decode: the same command comes out for every payload below 16 MiB, never a different one, and a payload of exactly 16 MiB is sent but not received |
| Setup.AcceptedThenRefused | src/helper.c:383 | there are commands whose lengths fit and whose payload is exactly 16 MiB, the length that HandOver shows accepted by one side and refused by the other |
| Structure.StructureAsString | src/hook/copy.c:91-121 | the loop over `pos` with its quote flag computes the scan |
| Structure.TextRefinesTree | src/hook/copy.c:91-121 | rewriting the text of a column list gives the text of the list with every leaf of the target type replaced by String |
| Structure.ScanArgs | src/hook/copy.c:102-119 | the same inside any nesting, with what follows scanned as if alone |
| Structure.CopyWord | src/hook/copy.c:106-112 | a word is copied whole unless it is the target standing by itself: DateTime64 survives Time64 |
| Structure.CopyQuoted | src/hook/copy.c:103-105 | quoted text with doubled quotes is copied as it is, even when it equals the target |
| Structure.ReplaceLeaf | src/hook/copy.c:108-115 | a leaf of the target type goes together with its parameters |
| Structure.ParamsSurvive | src/hook/copy.c:106-112 | parameters survive if and only if the target does not stand by itself inside them |
| Structure.LabelIsChanged | src/hook/copy.c:106-112 | parameters that hold the target between a space and a comma are changed, whatever surrounds it |
| Structure.RewriteArgLeaves | src/hook/copy.c:91-94 | leaf by leaf, at any depth: the target's leaves become String without parameters, the others stay as they are |
| Structure.RewriteRemovesAll | src/hook/copy.c:91-94 | the rewritten columns keep their names and no leaf of the target type is left, at any depth |
| Structure.RewriteKeepsAll | src/hook/copy.c:91-94 | columns that do not mention the type are unchanged |
| Structure.RewriteArgsStayWf | src/hook/copy.c:155-161 | a rewritten structure meets the conditions of the next rewrite, so the UUID and Time64 rewrites chain |
| Structure.RewriteArgsStayFree | src/hook/copy.c:155-161 | rewriting one type does not bring another back |
| Structure.TextRewriteIdempotent | src/hook/copy.c:91-121 | rewriting the text twice is rewriting it once |
| Structure.ChainRefinesTree | src/hook/copy.c:155-161 | the UUID rewrite of the text followed by the Time64 one is the text of the columns with both replaced |
| Structure.SupportedTwice | src/hook/copy.c:155-161 | the chained rewrite of the columns is idempotent |
| Structure.ChainIsIdempotent | src/hook/copy.c:155-161 | so is the chain on the text |
| Structure.StructureForAttnums | src/hook/copy.c:63-89 | for the columns whose i-th is attribute attnums[i] - 1 of the relation, the clause is their printed list |
| Structure.FormatLacksTime64 | src/hook/copy.c:123-140 | true exactly for the nine formats, whatever their case |
| Structure.DefaultStructure | src/hook/copy.c:151-162 | the clause sent is the printed list of those columns, for ORC with UUID and then Time64 leaves replaced, for the other formats that lack Time64 with those replaced, else as it is; another round of the chain would not change it |
| Azure.ParsePrinted | src/hook/copy.c:481-570 | parsing a printed URL returns its parts in both forms, the query kept on the account URL and a dotless abfs account expanded |
| Azure.AcceptedIsPrinted | src/hook/copy.c:481-570 | every URL accepted is the print of one whose meaning is the parts returned |
| Azure.AcceptedIff | src/hook/copy.c:509-569 | the URLs accepted are exactly the printable ones |
| Azure.EmptyQueryIsKept | src/hook/copy.c:499-503 | an empty query is told from none |
| Azure.RejectedAs | src/hook/copy.c:509-569 | with a scheme, an abfs URL is rejected exactly for want of an at sign, an az URL exactly for a host without a dot or for a container missing or empty, each with its own error |
| Azure.NoScheme | src/hook/copy.c:487-491 | a URL is malformed exactly when it holds no scheme mark |
| Azure.Cut | src/hook/copy.c:522-525 | the text before the first separator and the text after it, and together they are the text |
| Sink.NativeSink.Flush | src/native.c:129-135 | everything written so far has been sent and nothing is buffered |
| Sink.NativeSink.Write | src/native.c:137-155 | bytes sent followed by bytes buffered grow by exactly the bytes written, and the copy always fits the buffer |
| Sink.NativeSink.SendBlock | src/native.c:167-182 | after a block all its pieces have been sent, in order, and nothing is buffered |
| Sink.AppendSlot | src/native.c:194-213 | the j-th value appended is the tuple's attribute attnums[j] - 1 |
| Sink.CopySend | src/native.c:215-258 | the blocks hold, row for row and column for column, the scan's copied attributes, none is empty, each was under 8 MiB before its last row and all but the last reached it; the bytes sent are their encodings in order; the count is the rows scanned |
| Sink.CutIsUnique | src/native.c:242-250 | those conditions leave only one way to cut a scan |
| CopyRows.OneSource | src/native.c:483-525 | a copied attribute is its stream column; any other is its default if it has one and is neither dropped nor generated, else NULL |
| CopyRows.FateIsForced | src/native.c:787-851 | a row routed, converted, replaced by its BEFORE ROW trigger and computed as those functions say is stored, given to INSTEAD OF triggers, dropped or refused accordingly, for any such relation and rows |
| CopyRows.FateSpelledOut | src/native.c:787-851 | and only so: suppressed only if the trigger returned nothing, declined only if the wrapper did, refused only without a partition or by a failed check |
| CopyRows.StoredRowsAreSound | src/native.c:787-845 | a row handed to storage satisfies, in its final form and as the tables then stood, its relation's constraints and its partition's, though routed rows without BEFORE triggers are not checked |
| CopyRows.FateKeepsOrder | src/native.c:451-471 | the events of one row keep index and trigger work behind the row and leave each with exactly one |
| Buffering.FlushKeepsOrder | src/native.c:391-417 | at no moment of a flush is index or trigger work done for a row not yet in the heap, and after it every row has exactly one of each |
| Buffering.BufferingDelays | src/native.c:430-445 | a row put in the buffer and flushed later leaves the same work of each kind in the same order as that row stored at once |
| Buffering.AfterIsTidy | src/native.c:429-471 | one row's fate, through the buffer or not, keeps the order, fewer than 1000 rows and 64 KiB waiting, and adds that row's work |
| Buffering.RunIsOrdered | src/native.c:755-854 | so do whole runs, with the buffer or without |
| Buffering.RowsAreConserved | src/native.c:755-854 | in every run rows read are rows counted and rows suppressed or declined, and rows counted are rows stored and rows taken by INSTEAD OF triggers |
| Buffering.RunAccounts | src/native.c:755-854 | every row in a table after a run is what conversion, trigger, generated columns and wrapper made of one row of the stream, in stream order; every row given to INSTEAD OF triggers likewise; every other row was dropped by its trigger or wrapper |
| Buffering.RunStopsAt | src/native.c:787-845 | a run that raises does so at a row that no partition takes or that fails a check |
| Buffering.RunIsSound | src/native.c:787-845 | every stored row of a run satisfied its constraints when it was checked, with the tables lacking at most the rows then waiting |
| Buffering.BufferMakesNoDifference | src/native.c:736-747 | over all streams the loop does what it would do without its buffer, if and only if no row's fate turns on whether the rows waiting are in the table |
| Buffering.IgnoringTablesIsEnough | src/native.c:736-747 | that holds whenever the target is not buffered, or its defaults, generated columns and constraints do not look at tables; nothing is asked of triggers or routing |
| Buffering.NumberedApart | src/native.c:600-608 | row by row, a default that counts its table numbers two rows 0 and 1 |
| Buffering.NumberedAlike | src/native.c:600-608 | through the buffer, both get 0 |
| Buffering.NumberingDiffers | src/native.c:600-608 | such a table is buffered and the two runs are not the same |
| Insert.DefaultsFor | src/native.c:483-508 | finds exactly the attributes with a default that are not copied, dropped or generated, each once |
| Insert.FillDefaults | src/native.c:510-525 | those attributes get this row's default, the others keep their value |
| Insert.BuildRow | src/native.c:760-782 | the row built depends on the stream row and its number alone, whatever the slot held before |
| Insert.NativeInsert.AfterRow | src/native.c:381-389 | index entries if there are indexes, then the AFTER ROW event |
| Insert.NativeInsert.MultiInsert | src/native.c:402-409 | the rows waiting in the slots go to the heap, in order |
| Insert.NativeInsert.Flush | src/native.c:391-417 | all rows to the heap, then each row's work in order; nothing is left waiting |
| Insert.NativeInsert.BufferSlot | src/native.c:419-427 | never hands out a slot in which a row is waiting; the slots allocated stay a prefix of the array without repeats |
| Insert.NativeInsert.BufferStore | src/native.c:429-445 | the slot's row joins those waiting, and the buffer is flushed exactly when that makes 1000 rows or 64 KiB |
| Insert.NativeInsert.InsertRow | src/native.c:447-471 | a heap row and its work, a foreign row and its trigger event, or nothing when the wrapper declines |
| Insert.NativeInsert.Treat | src/native.c:830-851 | with the cached flag, the checks and the insertion come out as the relation's own flag says, and do to the buffer what that fate calls for |
| Insert.NativeInsert.Handle | src/native.c:822-853 | with cached flags equal to the relation's, the row meets its fate |
| Insert.NativeInsert.Finish | src/native.c:861-864 | nothing stays buffered and every slot allocated is dropped exactly once |
| Insert.Route | src/native.c:787-820 | after routing, the cached flags are those of the relation the row goes to, however routing alternates |
| Insert.CopyRow | src/native.c:755-854 | one turn keeps the pool and the cache, and does to the row what its fate calls for, its defaults and checks seeing the tables without the rows waiting |
| Insert.CopyAll | src/native.c:755-854 | the loop is the function Run: it raises exactly when that refuses a row, and otherwise has its count and its buffer |
| Insert.Receive | src/native.c:609-892 | raises exactly when a row is refused or the reader fails, and then some row was turned away; otherwise the count returned is the rows stored plus those taken by INSTEAD OF triggers, each of them what its own functions made of its own row of the stream, nothing is left waiting, each stored row was sound when checked, and every slot was dropped; with expressions that ignore tables, outcome, count and work of each kind are those of the run without a buffer |

## Left out

- ProtocolSuccess.FairCopyToSucceeds: asks for no failure anywhere in the engine's script, since which of its events a COPY TO reaches depends on how the bytes are split into reads.
- Protocol.NextHelper: `malloc` failures, `fail()` and a failed exec are the helper dying with a status other than 0, whose message is not modelled.
- Protocol.Recv: a caller that stops early is one choice; the Native reader itself is not modelled.
- Helper.Kernel: bounds how often it answers EINTR or EAGAIN, so that loops end; that the two processes supply each other is proved on `Protocol`.
- Helper.Kernel.Waitpid: a `waitpid` that gives no status counts as the one wait.
- Helper.ChdbHelper.Report: the error's headline, `helper_end` and the SQLSTATE are not modelled, only the quoted text.
- ErrorText.ClipLen: the multibyte clip of Postgres is modelled as stepping whole characters by their first byte up to the limit or a NUL.
- Descriptors.Process.Unused: any number free at or above the least, where POSIX takes the lowest; `signal` and `prctl` are not modelled.
- Structure.DefaultStructure: the quoting of identifiers and the type names come from a header that is not part of this model; the printed shape is assumed.
- Sink.NativeSink.Write: speaks of writes that return; one that raises ends the copy.
- Sink.CopySend: the Native encoder is a function from a block's rows to its pieces, the writer's size a function of its rows; the empty-array rule for NULL arrays belongs to it.
- Insert.Receive: index insertion, constraint triggers and `table_multi_insert` are log entries that do not raise; transition capture, statement triggers, memory contexts and `crossing` are not modelled, and a raise leaves cleanup to the transaction.
- Insert.Route: relations are compared by value, where the code compares pointers; equal relations have equal flags.
- Buffering.RunIsSound: a constraint is checked once, as the code does; that later rows keep it true is not claimed.
- CopyRows.Env: conversion of datums, encodings and visibility are inside the arbitrary functions.
- Reader conversion, block decoding and type mapping live in vendored headers.
- `make_ch_query` and the file URL helper: a case split over schemes.
- `src/hook/hook.c`, `src/hook/create.c`, `chdb_query`, settings, privileges and version branches.
- libchdb, `setup_session`'s text, latches and timeouts.
