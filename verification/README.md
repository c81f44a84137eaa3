# mysql2odbc bridge, modelled in Dafny

mysql2odbc is a small C library (`libfakesql`) that offers the MySQL client
API (`mysql_real_connect`, `mysql_query`, `mysql_store_result`,
`mysql_fetch_row`, ...) and implements each call on top of ODBC. This
project models its core:

- the connection's single last-error slot;
- the classification of ODBC return codes and the clean-up of the driver's
  diagnostic text;
- the allocation and ordered teardown of the ODBC environment, connection
  and statement handles, and the connect string;
- statement execution with the discovery of a string-typed column schema;
- the two result modes: buffered (`mysql_store_result`, a list of rows with a
  cursor) and streaming (`mysql_use_result`, an eof flag and a running row
  count);
- the field and row cursor calls.

Every ODBC call is an oracle. The model receives its return code (`Reply`,
together with the diagnostic records `SQLError` would hand out afterwards),
the text or number the call writes, or the column buffers and indicators a
fetch leaves. Every allocation the code branches on is a boolean input,
except the `strdup` of the saved diagnostic in `_fetch_db_errors`, which is
taken to succeed. All state is immutable data and
every operation is a pure function from state and oracle answers to state.

Files, one module each:

| file | module | models |
|---|---|---|
| `base.dfy` | `Base` | NULL as `Option`, C strings, `strchr`, the integer conversions |
| `flags.dfy` | `Flags` | the column flag bits and `IS_NOT_NULL`, `IS_PRI_KEY`, `IS_BLOB` |
| `header.dfy` | `Header` | field type codes, `MYSQL_FIELD`, `IS_NUM`, `INTERNAL_NUM_FIELD`, sizes and sentinels |
| `messages.dfy` | `Messages` | the clean-up of a diagnostic record into the error message |
| `connection.dfy` | `Connection` | `MYSQL`, the private ODBC state, `_set_error`, `_fetch_db_errors`, `_trap_sqlerror`, `_db`, `_free_fields` |
| `lifecycle.dfy` | `Lifecycle` | `_alloc_db`, `_connect_db`, `_free_db`, `_impl_close`, `_impl_real_connect` and its connect string |
| `query.dfy` | `Query` | `_alloc_fields`, `_impl_query` |
| `results.dfy` | `Results` | `MYSQL_RES`, `_alloc_res`, `_append_row`, `_impl_use_result`, `_impl_store_result`, `_impl_fetch_row`, the cursor calls |

In a few places the code behaves differently from what the MySQL client API
it imitates leads a caller to expect. The model follows the code:

- `mysql_num_rows` of a stored result is always 0. `_impl_store_result`
  never sets `row_count`; only the row list's own counter grows
  (`Results.StoredRowsReplayInOrder`).
- The column schema stays attached to the connection when a result is
  handed out. `_alloc_res` shares the array and writes `max_length` into it,
  so the connection sees that change too (`Results.AllocRes`).
- A failed column-attribute read leaves the partly filled schema in place
  (`Query.FailedColumnKeepsPartialSchema`).
- A failed row-count read leaves its error in the error slot even though the
  query returns 0 (`Query.RowCountFailureStillSucceeds`).

## Model

| member | source | states |
|---|---|---|
| Base.ToULong | libfakesql.h:170 | `(my_ulonglong) n` keeps a non-negative value, wraps a negative one modulo 2^64, and stays within `ULONG_MAX` |
| Base.ToUInt | libfakesql.c:728 | `(unsigned int) numCols` keeps a non-negative count and wraps a negative one modulo 2^32 |
| Base.FindChar | libfakesql.c:342 | `strchr` finds the first occurrence at or after the start, and none means the character is absent |
| Flags.FlagTestsFollowTheirBit | libfakesql.h:114-116 | `IS_NOT_NULL`, `IS_PRI_KEY` and `IS_BLOB` are true when their bit (1, 2, 16) is set and false when it is clear |
| Flags.NotNullIgnoresOtherBits | libfakesql.h:58 | setting bits other than NOT_NULL_FLAG does not change `IS_NOT_NULL` |
| Flags.PriKeyIgnoresOtherBits | libfakesql.h:59 | setting bits other than PRI_KEY_FLAG does not change `IS_PRI_KEY` |
| Flags.BlobIgnoresOtherBits | libfakesql.h:62 | setting bits other than BLOB_FLAG does not change `IS_BLOB` |
| Header.FieldTypes | libfakesql.h:129-154 | the 23 enumerators count up from 0 to NEWDATE = 14, then again from ENUM = 247 up to STRING = 254 |
| Header.IsNumExactly | libfakesql.h:117 | `IS_NUM(t)` holds exactly for the codes below 10 and for 13, that is the enumerators DECIMAL to INT24 and YEAR |
| Header.StringLikeTypesAreNotNum | libfakesql.h:146-153 | no code from ENUM to STRING is numeric |
| Header.NumFlagIsGroupFlag | libfakesql.h:71-73 | NUM_FLAG and GROUP_FLAG are the same bit, so `IS_NUM_FIELD` also reports group fields |
| Header.InternalNumFieldCases | libfakesql.h:119 | `INTERNAL_NUM_FIELD` implies `IS_NUM` of the type; it holds for every numeric type except TIMESTAMP, and for TIMESTAMP exactly when the length is 8 or 14 |
| Header.MinusOneIsCountError | libfakesql.h:121 | `(my_ulonglong) -1` equals MYSQL_COUNT_ERROR, the all-ones value |
| Messages.MessageLeavesRoomForTerminator | libfakesql.c:358-359 | the 199-character limit on a message plus the terminator fills the 200-byte slot |
| Messages.SkipTags | libfakesql.c:339-345 | the tag skip stays inside the text, and when it moves, the text starts with `[` and the skipped part ends with `]` |
| Messages.AfterTags | libfakesql.c:346-352 | what remains after the tags is a suffix of the text |
| Messages.StripTags | libfakesql.c:338-352 | the stripped text is a suffix; when anything was removed, the text started with `[`, at least two characters remain, and they follow a `]` or a space |
| Messages.CutAtNewline | libfakesql.c:354-356 | the cut text is the prefix before the first newline, or the whole text when there is none |
| Messages.PrefixOfTail | libfakesql.c:338-359 | a prefix of the first line of the stripped text is the piece of the record that starts where the tags end |
| Messages.CleanMessage | libfakesql.c:338-359 | the stored message is the first line after the tags, cut to 199 characters when longer; it has no newline and is a piece of the record that starts where the tags end |
| Messages.SkipOneTag | libfakesql.c:342-344 | a complete tag is skipped up to just after its first `]` |
| Messages.SkipOnlyOneTag | libfakesql.c:339-345 | a leading tag that is not followed by a second complete tag is the only one skipped |
| Messages.StripWithoutTag | libfakesql.c:342-343 | a text that does not start with `[`, or has no `]`, is left unchanged |
| Messages.StripTwoTags | libfakesql.c:338-352 | two leading tags and an optional space are removed when at least two characters follow them, and a third tag is kept |
| Messages.StripOneTag | libfakesql.c:338-352 | a single leading tag and an optional space are removed when at least two characters follow |
| Messages.OneTagLayout | libfakesql.c:339-345 | after one tag, the scan for a second one stops: the text ends, or the next character is not `[`, or no `]` follows |
| Messages.StripKeepsShortText | libfakesql.c:350-351 | when fewer than two characters follow the tags, nothing is removed |
| Messages.StripOneTagKeepsShortText | libfakesql.c:350-351 | when fewer than two characters follow a single tag and the optional space (`[a] x`), nothing is removed |
| Messages.CleanMessageCutsLongLine | libfakesql.c:358-359 | a first line longer than the slot is stored as its first 199 characters |
| Messages.CleanPlainMessage | libfakesql.c:338-359 | a short, untagged, single-line record is stored as it is |
| Messages.CutTrailingNewline | libfakesql.c:355-356 | a line followed by its newline is cut back to the line |
| Messages.CleanTaggedMessage | libfakesql.c:338-359 | `[vendor][driver]text\n` is stored as `text` |
| Connection.InitConn | libfakesql.c:580-592 | `mysql_init` leaves no error, no private state, no schema and a zero row count |
| Connection.SetError | libfakesql.c:243-265 | `_set_error` sets the number and its fixed text and changes nothing else |
| Connection.ErrorTextCases | libfakesql.c:243-265 | only 2008, 2000 and 2013 have a text; every other number, 0 and 9999 included, clears the message; every text fits the slot |
| Connection.Harvest | libfakesql.c:282-331 | the chain holds the statement records, then the connection records, then the environment records, each in the order `SQLError` gave them and each scope only if its handle is allocated |
| Connection.HarvestHeadIsFirstRecord | libfakesql.c:282-331 | the first record harvested is the first record of the highest-priority scope that has one, and there is none exactly when every consulted scope is empty |
| Connection.FetchDbErrors | libfakesql.c:271-362 | with `save` set, the cleaned first record becomes the message; without it, or without records, the connection is unchanged |
| Connection.Trap | libfakesql.c:365-397 | Success, SuccessWithInfo and NoData pass and leave the connection as it was; InvalidHandle gives 2013 and clears the connected flag; Error gives 9999 with the cleaned first record; any other code gives 2000 |
| Connection.TrapFailureIsReported | libfakesql.c:365-397 | a rejected code always leaves the number its code calls for (2013 for an invalid handle, 9999 for an SQL error, 2000 otherwise) and the message that goes with it: the cleaned first record for an SQL error, the number's fixed text otherwise; the message is empty only for an SQL error; it always fits the slot |
| Connection.RejectionMessageReadsHandles | libfakesql.c:271-331 | the message a rejection leaves depends only on which of the three handles are allocated, not on the connected or data flags |
| Connection.FreeFields | libfakesql.c:425-443 | `_free_fields` leaves a NULL schema and keeps everything else |
| Connection.Db | libfakesql.c:171-194 | no private state gives 2008; not connected or no statement handle gives 2013; otherwise the guard passes with errno 0 and an empty message |
| Lifecycle.AllocDb | libfakesql.c:122-141 | a zeroed private state with every handle null and the error cleared, or NULL with 2008 |
| Lifecycle.AllocHandle | libfakesql.c:206-233 | an allocation succeeds exactly when its code is accepted; it sets its own handle slot non-null exactly then and leaves the other slots, the data flags, the schema and the row count alone; a rejection leaves the error of that allocation's code, its records read with the new slot still empty, and an invalid handle clears the connected flag |
| Lifecycle.ConnectDb | libfakesql.c:197-240 | the connect sequence succeeds exactly when all four calls are accepted; then all three handles are allocated, the connection is marked connected and the error is unchanged; each handle is present exactly when its allocation and every earlier call were accepted; a failure leaves the error of the first rejected call, read with the handles allocated before it |
| Lifecycle.ConnectedFlag | libfakesql.c:197-240 | after the connect sequence the connected flag is set exactly when the driver connect was accepted and the statement allocation did not report an invalid handle |
| Lifecycle.FreeDb | libfakesql.c:144-168 | each release is issued exactly when its handle (or, for the disconnect, the connected flag) is present, in the order statement, disconnect, connection, environment; afterwards there is no private state |
| Lifecycle.Close | libfakesql.c:595-613 | `_impl_close` issues the teardown's releases, drops the private state and the schema, and keeps the error and row count |
| Lifecycle.CloseTwiceIsNoOp | libfakesql.c:595-613 | a second close issues no release and changes nothing |
| Lifecycle.Dsn | libfakesql.c:646-649 | the connect string is `DSN=<db>;UID=<user>;PWD=<password>` (database `mysql` when none is given, NULL names as empty), cut to its first 511 characters when longer, as POSIX `snprintf` into the 512-byte buffer does |
| Lifecycle.DsnCutsLongPassword | libfakesql.c:646-649 | a password of 511 characters or more makes the connect string exactly 511 characters long, still starting with `DSN=` |
| Lifecycle.DsnRoundTrip | libfakesql.c:646-649 | when the names contain no `;` and the string fits, `ParseDsn` reads back the database (`mysql` when none is given), the user and the password that were given |
| Lifecycle.DsnDoesNotEscape | libfakesql.c:646-649 | nothing is escaped: a user name containing `;PWD=` changes the user and the password `ParseDsn` reads |
| Lifecycle.RealConnect | libfakesql.c:616-666 | the row count becomes the unknown sentinel; the connect succeeds exactly when the allocation and all four calls succeed; a failure leaves no private state, no schema and one of the four error numbers: 2008 with its text when the private state cannot be allocated, otherwise the error of the first rejected call of the connect sequence |
| Lifecycle.FailedConnectReleasesWhatWasAllocated | libfakesql.c:651-665 | a failed connect releases the environment, the connection and the disconnect exactly when they had been set up, and never a statement |
| Query.AllocFields | libfakesql.c:400-422 | the old schema is freed; the new one has `count` zeroed descriptors, or is NULL with 2008 when a non-empty allocation fails |
| Query.RejectedReply | libfakesql.c:742-761 | the first rejected attribute read of a column, absent exactly when all three are accepted |
| Query.DisplayLength | libfakesql.c:762-764 | a display size is kept when non-negative and becomes 65500 when negative, so the width is never negative |
| Query.Described | libfakesql.c:737-764 | a described column is a STRING column; it gets the table name once that read is accepted, the label once both are, and the display width (65500 when negative) once all three are |
| Query.DescribeColumn | libfakesql.c:731-767 | one turn of the loop changes only its own descriptor, succeeds exactly when all three reads are accepted, and otherwise leaves the error of the first rejected read |
| Query.Describe | libfakesql.c:731-767 | the loop describes every column up to the first rejected one, leaves later descriptors untouched, and fails with that column's error |
| Query.FirstRejectedRead | libfakesql.c:731-767 | the first rejected attribute read among the visited columns, absent exactly when all are accepted |
| Query.FirstRejectedCall | libfakesql.c:711-767 | the first rejected call of a statement (execution, column count, attribute reads), absent exactly when all are accepted |
| Query.DescribeResult | libfakesql.c:728-776 | after the column count: the query fails exactly when some visited column has a rejected attribute read, leaving that read's error; otherwise it returns 0 with the driver's row count or the unknown sentinel, and leaves the row-count call's error when it was rejected, 2008 when a negative count's descriptor allocation failed, and the earlier error otherwise; the prepared and data flags are kept |
| Query.ReadColumns | libfakesql.c:719-776 | after the execution: the column count is read when there is a result, and a rejection of it or of an attribute read fails the query with that call's error; the flags are kept |
| Query.Execute | libfakesql.c:702-777 | past the guard: the previous statement is closed, the flags are set as in `Query.ExecQuery`, and a failure leaves the error of the first rejected call |
| Query.ExecQuery | libfakesql.c:687-777 | the query returns 0 exactly when the guard passes and every call up to the row count is accepted; it reports whether a prepared statement was closed first; it marks the statement prepared and records whether data came back; a rejected execution or column count keeps the previous schema; the row count is the driver's value or the unknown sentinel; after the guard, a failure leaves the error of the first rejected call, a success with an accepted row count leaves errno 0 and an empty message (2008 when a negative count's allocation failed), and a rejected row count leaves that call's error |
| Query.ReadRejection | libfakesql.c:728-776 | the rejection a described result leaves: the first rejected attribute read, or else a rejected row count; none exactly when both pass |
| Query.QueryRejection | libfakesql.c:711-776 | the rejection a statement leaves: the first rejected call up to the attributes, or else a rejected row count; none exactly when all pass |
| Query.DescribeResultKeepsHandles | libfakesql.c:381-384 | describing a result keeps the three handles, clears `connected` exactly when its rejection reports an invalid handle, and keeps the affected-row count on failure |
| Query.ReadColumnsKeepsHandles | libfakesql.c:719-776 | the same frame for the stage after the execution |
| Query.ExecuteKeepsHandles | libfakesql.c:702-777 | the same frame for the stage after the guard |
| Query.ExecQueryKeepsHandles | libfakesql.c:687-777 | `_impl_query` keeps the environment, connection and statement handles, clears `connected` exactly when the rejection it leaves reports an invalid handle (C 381-384), and leaves the affected-row count alone when it returns -1, since it returns before line 770 |
| Query.QuerySuccessKeepsGuard | libfakesql.c:171-194 | after a successful statement whose row-count read did not report an invalid handle, the `_db` guard of the next call passes |
| Query.QueryWithoutResultHasNoFields | libfakesql.c:716-728 | a NoData execution succeeds with no schema and without data |
| Query.QueryFieldsAreStrings | libfakesql.c:728-764 | after a successful query there is one descriptor per column, each a non-numeric STRING column with the driver's table name, label and width, and nothing else set |
| Query.FailedColumnKeepsPartialSchema | libfakesql.c:738-761 | a rejected attribute read fails the query, but the schema keeps its length; the failing descriptor has what it got so far, and the later ones stay zero |
| Query.RowCountFailureStillSucceeds | libfakesql.c:770-776 | a rejected row-count read still returns 0, sets the unknown sentinel and leaves that call's error number and message |
| Results.BufferSize | libfakesql.c:475 | `max_length` is the width plus 32 in `unsigned int` |
| Results.SizeBuffers | libfakesql.c:473-478 | the first `k` descriptors get their `max_length` set and the others are unchanged |
| Results.Entry | libfakesql.c:892-893 | a column entry is NULL exactly when its indicator is SQL_NULL_DATA, and otherwise the buffer's text |
| Results.RowOf | libfakesql.c:950-956 | a fetched row has one entry per cell, each the entry of its column |
| Results.RowOfFollowsIndicators | libfakesql.c:950-956 | every NULL in a row comes from an SQL_NULL_DATA indicator, and every other entry is its buffer's text |
| Results.AllocRes | libfakesql.c:446-487 | no schema gives no result and no error; a result is made exactly when every allocation succeeds; any failure gives 2008; `max_length` is written into the schema shared with the connection, up to the failing column |
| Results.BindColumns | libfakesql.c:803-819 | binding succeeds exactly when every bind is accepted, and otherwise leaves the first rejected bind's error |
| Results.UseResult | libfakesql.c:780-827 | a streaming result is made exactly when the guard, the allocations and every bind succeed, with `current_row` allocated; without a schema there is no result and errno stays 0; a failed allocation leaves 2008 and its text; a rejected bind leaves the error of the first rejected one; the result's schema is the connection's schema with every buffer size recorded (C 462-478), shared with the connection, which keeps its private state on success; the affected-row count is never changed |
| Results.BindRejection | libfakesql.c:803-819 | the first rejected bind of the schema, none exactly when every bind passes |
| Results.UseResultKeepsHandles | libfakesql.c:780-827 | `_impl_use_result` changes the private state at most by clearing `connected`, exactly when the first rejected bind reports an invalid handle |
| Results.StoreResultKeepsHandles | libfakesql.c:830-911 | `_impl_store_result` changes the private state at most by clearing `connected`, exactly when the first rejected bind, or else the fetch that stopped the store loop, reports an invalid handle |
| Results.ResultHasQueryColumns | libfakesql.c:728-827 | after a successful statement with a non-negative column count, a result taken with `mysql_use_result` or `mysql_store_result` has `mysql_num_fields` equal to that count, and each descriptor is the statement's descriptor with its buffer size recorded |
| Results.StopAt | libfakesql.c:873-900 | the first fetch that stores no row |
| Results.Gather | libfakesql.c:873-900 | the rows are stored in fetch order up to the first fetch that stores nothing, each built from that fetch's cells; a rejected fetch fails with its error; NoData stops cleanly; a failed row allocation stops with 2008 and keeps the rows |
| Results.StoreResult | libfakesql.c:830-911 | a buffered result is made exactly when the guard, the allocations, every bind and every fetch up to the stop succeed; it holds the gathered rows, whose entries are NULL exactly where the indicator was SQL_NULL_DATA; its cursor is on the first row, its row count is 0 and `current_row` is NULL; when no result is made, a failed allocation leaves 2008 and its text, a rejected bind the error of the first rejected one, and a rejected fetch that fetch's error; on success the schema is the connection's with every buffer size recorded and shared with it, the private state is kept, and a failed row allocation leaves 2008 with its text; the affected-row count is never changed |
| Results.FetchRow | libfakesql.c:914-961 | buffered: the row under the cursor is returned and the cursor advances, without touching the connection; streaming: the guard runs first and clears the error even at eof, a failed guard leaves its 2008 or 2013, eof or a rejected code gives NULL with the trap's error, NoData sets eof, and a delivered row has NULL exactly where the indicator was SQL_NULL_DATA and is counted; a delivering fetch needs `current_row` allocated, and `current_row` is left non-NULL after a buffered fetch exactly when a row was returned |
| Results.FetchRows | libfakesql.c:1255-1259 | successive fetches keep the schema and the stored rows and a valid cursor; a streaming replay needs `current_row` allocated or eof already set |
| Results.BufferedReplay | libfakesql.c:922-933 | from row `k`, successive fetches return rows `k`, `k + 1`, ... in order and then NULL forever |
| Results.StoredRowsReplayInOrder | libfakesql.c:1149-1154 | a stored result returns its rows in order then NULL, and `mysql_num_rows` stays 0 |
| Results.EofIsSticky | libfakesql.c:935-937 | once eof is set, every fetch returns NULL and the result no longer changes |
| Results.StreamEndsAtNoData | libfakesql.c:943-947 | a NoData answer sets eof, and that fetch and every later one return NULL |
| Results.StreamingCountsDelivered | libfakesql.c:950-958 | the streaming row count grows by exactly the number of rows delivered |
| Results.RowSeek | libfakesql.c:1228-1239 | `mysql_row_seek` installs the new cursor, which `mysql_row_tell` reads back, sets `current_row` to NULL, and returns the old cursor |
| Results.FieldSeek | libfakesql.c:1242-1252 | `mysql_field_seek` installs the new offset, which `mysql_field_tell` reads back, and returns the old one |
| Results.SeekBackRestores | libfakesql.c:1228-1252 | seeking back to the returned offset restores the result, except that `current_row` stays NULL after a row seek |
| Results.FetchField | libfakesql.c:1270-1277 | returns the descriptor under the field cursor and advances it, or returns NULL without moving once past the last column |
| Results.FieldWalkInOrder | libfakesql.c:1270-1277 | from offset `k`, successive calls return descriptors `k`, `k + 1`, ... and then NULL, and the offset stops at the column count |
| Results.FetchFieldDirect | libfakesql.c:1165-1170 | returns descriptor `n` of the result's schema |
| Results.FieldAccessorsAgree | libfakesql.c:1157-1178 | the array `mysql_fetch_fields` returns has `mysql_num_fields` entries, entry `n` is what `mysql_fetch_field_direct` returns for `n`, and `mysql_fetch_field` from the first field returns them all in order |
| Results.FieldDirectIsSeekThenFetch | libfakesql.c:1165-1170 | reading column `n` directly gives what `mysql_fetch_field` returns after `mysql_field_seek` to `n` |
| Results.StubsChangeNothing | libfakesql.c:1221-1267 | `mysql_data_seek` does nothing and `mysql_fetch_lengths` returns NULL |

## Left out

- Memory management is not modelled: malloc, strdup and free, the row nodes, leaks and double frees. The allocations the code branches on appear as boolean inputs, except the one below.
- A fetch error in `_impl_store_result` leaks the result. The model only returns NULL.
- `Connection.FetchDbErrors` takes the `strdup` of the first saved record to succeed. When it fails, `copy` stays NULL, and the C code saves the next record instead, or none.
- A NULL `MYSQL *` is not modelled; a `Conn` is always a structure. In the C code, `_db(NULL)` returns NULL without setting an error, so `_impl_query` returns -1 and `_impl_use_result` and `_impl_store_result` return NULL. `_impl_close` ignores NULL, `_impl_init` allocates a fresh structure for it, and `_impl_real_connect` dereferences it.
- The host, user and server strings that `_impl_real_connect` duplicates into the `MYSQL` structure are not modelled; nothing in the core reads them back.
- Only `free_me` of the close path is left out. The second `_impl_close` in `_impl_connect` is left out with it.
- ODBC semantics are reduced to oracle answers. That covers `SQLBindCol` buffer binding, the driver's truncation of `SQLError` text to its 512-byte buffer and of column values to their bound buffers, and driver behaviour in general. The 128-byte `SQLColAttribute` buffer is the exception: `Query.Described` applies its 127-character cut itself.
- `Query.ExecQuery` requires the descriptor allocation to succeed when there are columns. `_impl_query` does not check the result of `_alloc_fields` and then writes through a NULL pointer.
- `Query.DescribeResult`, `Query.ReadColumns` and `Query.Execute` carry the same requirement, since they are the stages of `_impl_query` that lead to the writes into the new descriptors.
- `Query.DescribeResult` (and so `Query.ExecQuery`) stops after column 32767 when the count is 32767. In the C code the SQLSMALLINT counter `col` wraps to -32768 after the last column, so `col <= numCols` still holds and the loop runs on past the end of the descriptor array.
- A result's `fields` is the connection's own array in the C code, not a copy: the next `_alloc_fields`, or `_impl_close`, frees it while the result still points at it. The model hands the result a value copy, so a result that outlives the next query keeps its schema in the model but dangles in the code.
- `Results.FetchRow` and `Results.Gather` build each row from the cells in the driver's answer. The model does not tie the number of cells to the column count; the code reads exactly `field_count` of them.
- A negative column count is modelled as the wrap-around count `_alloc_fields` receives; the discovery loop then does not run.
- `Results.Gather` ends the store loop with NoData once the listed fetches are used up. The code loops until the driver stops.
- `Results.RowSeek` sets `current_row` to NULL, also on a streaming result, where that array is the one `_impl_use_result` allocated (and it leaks). The next streaming fetch that delivers a row then writes `current_row[j]` through the NULL pointer. `Results.FetchRow` requires `current_row` to be allocated for such a fetch, so the model promises nothing for it; after a row seek only a fetch that ends in eof, in a rejection or behind a failed guard is covered.
- `Results.FetchRow` returns each streaming row as a value. In the code every streaming fetch returns the same `current_row` array, whose entries point into the same bound buffers `row[j]`, so the next fetch overwrites the row the caller got before. The model keeps earlier rows intact.
- The `lengths` array is not modelled beyond the indicator of each cell: `mysql_fetch_lengths` is a stub.
- Stub and constant entry points are not modelled: `mysql_change_user` through `mysql_shutdown`, the escape, debug and defaults functions, and the host, protocol, thread-id and charset getters.
- `DEBUG` tracing, the `#if 0` blocks, `st_mysql_options` and the REFRESH_ and CLIENT_ flag lists have no behaviour and are not modelled.
- `mysql_num_fields`, `mysql_fetch_fields`, `mysql_row_tell`, `mysql_field_tell`, `mysql_num_rows` and `mysql_eof` are plain reads without contracts of their own. `Results.FieldAccessorsAgree` relates the first two to `mysql_fetch_field_direct` and `mysql_fetch_field`; the seek, replay and counting lemmas use the others.
- `Lifecycle.Dsn` models the POSIX `snprintf`, which always terminates the string. On WIN32 the code defines `snprintf` as `_snprintf` (libfakesql.c:39-41), which for a connect string of 512 characters or more fills all 512 bytes without a terminator, so `SQLDriverConnect` with SQL_NTS reads past the buffer; the model does not cover that build.
- `Base.ToULong` models `my_ulonglong` as 64 bits. It is `unsigned long` (libfakesql.h:170), which is 64 bits only on LP64 platforms; on WIN32, which the code also builds for, and on 32-bit Unix it is 32 bits, so the affected-row count, the streaming row count and MYSQL_COUNT_ERROR wrap at 2^32 there.
