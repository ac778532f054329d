# A model of the Kubling SQLAlchemy driver's Execute protocol

The project models the client side of Kubling's Execute protocol and proves
properties of it that hold for every reply a server can send.

* `Grammar`, `Transcripts`, `ExecutionStreams`: the validating reader of an Execute
  call. Its abstract state is a partial parse (finished result blocks and the set
  still open); the class keeps the counters and id sets of the code and is proved
  against that parse. Whole runs accept exactly one grammar.
* `RowTheorems`: what the reader accepts of columns, rows and outcomes, said directly.
* `PositionTheorems`: the same stream judged response by response, from what was sent
  before each, without blocks or parses; it fixes every event and the verdict of any run.
* `Fetching`, `CursorStreams`, `DbApi.Cursor`: a cursor as a plain list of rows still
  to come and what follows it. The class, with its buffer of batches, answers
  every fetch as that list does.
* `Transactions`, `TransactionTheorems`, `DbApi.Connection`: the transaction machine
  as a fold over the log of calls sent and observations made. The connection's
  fields are proved to be the state its log leads to; the theorems speak of every log.
* `Executions`, `ExecutionTheorems`: what `execute`, `executemany`, `commit` and
  `rollback` come to, from the server's replies.
* `Worlds`, `WorldTheorems`, `BatchingTheorems`, `DeliveryTheorems`, `LogTheorems`,
  `Clients`: a connection with all its cursors as one machine, properties of every
  program it can run, and the proof that programs over the classes are exactly such runs.
* `OperationTheorems`: what each public call answers, sends and leaves behind, from the
  fields before it and the server's raw reply.
* `CellTheorems`: what the rows a caller gets hold, cell by cell, in every program.
* `Descriptors`, `LocalTimes`, `Numerals`, `Codec`, `CodecTheorems`: type descriptors,
  temporal and integer text, encoding and decoding of nested values.
* `Requests`: what is checked before a request goes out.
* `Lobs`: the chunked LOB reader and writer.

Replies of the server are parameters of the operations: the responses and the ending
of an Execute call, and the replies to Begin, Commit, Rollback and Logout. A call that
has ended keeps reporting the same ending. Python's `json`, `Decimal` parsing, the
rounding of integers to floats and of floats to single precision, and the incremental
UTF-8 decoder are functions the model takes as given (`Codec.Library`, `Lobs.Utf8`);
floats are opaque bits, NaN and the infinities included. Objects passed to the codec
satisfy what their constructors check (`Codec.WellMade`).

Functions that only compute have no row of their own below; the lemmas and
methods about them do. Where the code keeps less than one might expect, the exact
condition is proved instead: a LOB reference under the wrong LOB type
(`MismatchedLobReference`, `RoundTrip`), state NONE beside a held transaction
(`NoneDoesNotMeanIdle`, `NoneWhileHeldExactly`), an autocommit execution after
autocommit is switched off (`SwitchedResultCannotBeRead`, `ReadingToTheEndSucceedsExactly`), a
commit in the unknown state (`UnknownBeforeAnyCommit`, `CommitWithoutExecuteExactly`),
and a LOB read that need not reach the end of the object (`ReachesTheEndExactly`).

## Model

| member | source | states |
|---|---|---|
| Transcripts.AcceptsExactlyTheGrammar | kubling_sqlalchemy/transport/client.py:221-403 | For every configuration, response sequence and ending: the stream completes if and only if the call ends cleanly and the responses spell a sentence of the result grammar followed by a legal end, within the negotiated limits. |
| PositionTheorems.ReadResponseByResponse | kubling_sqlalchemy/transport/client.py:221-403 | For every response sequence and ending, without reference to blocks or parses: the reader gives one event per response up to the first that does not fit where it stands (its id, parent, columns, rows, counts and end against what was sent before it), each event says what its response says, an end is given only last and with a clean ending, and the verdict, with its error, is determined. |
| PositionTheorems.CompletesResponseByResponse | kubling_sqlalchemy/transport/client.py:221-403 | A stream completes if and only if every response fits where it stands, the last one and no other is the end, and the call ends cleanly. |
| Transcripts.ConformingIsDelivered | kubling_sqlalchemy/transport/client.py:275-403 | Every conforming, cleanly ended response sequence is delivered whole: ids 1, 2, 3, ..., row counts that are the sums of the batches, and the outcome last. |
| Transcripts.CompletionConforms | kubling_sqlalchemy/transport/client.py:374-403 | A completed stream exhibits the sentence and end that its responses spell, and delivered exactly their events. |
| Transcripts.FailureDeliversPrefix | kubling_sqlalchemy/transport/client.py:221-240 | Whatever the server sends, the events handed out before a failure are a prefix of the events of some sentence. |
| Transcripts.GrammarIsUnambiguous | kubling_sqlalchemy/transport/client.py:504-518 | One response sequence spells at most one sentence before its end, whether or not that end is legal. |
| Transcripts.StepsSpell | kubling_sqlalchemy/transport/client.py:275-372 | Responses accepted so far are exactly the wire form of the parse they reach, each within the limits, and the events delivered are that parse's events. |
| Transcripts.SpellingSteps | kubling_sqlalchemy/transport/client.py:275-372 | Conversely, responses within the limits that spell a parse, even one with a result set still open, are all accepted and reach that very parse. |
| Transcripts.AdvanceExtends | kubling_sqlalchemy/transport/client.py:275-372 | One accepted response extends the wire reading by itself and the delivered events by one. |
| Transcripts.ReadIsAccepted | kubling_sqlalchemy/transport/client.py:374-403 | A transcript is the events of the longest accepted prefix, plus one outcome exactly when a legal end is the last response and the call ends cleanly. |
| Transcripts.OutcomeMeansCompletion | kubling_sqlalchemy/transport/client.py:386-403 | An outcome is delivered only as the last event, and only by a stream that completes. |
| Transcripts.PartialIsNeverSilent | kubling_sqlalchemy/transport/client.py:405-452 | A delivered PARTIAL outcome implies an accepted feature, the caller's permission, a query result delivered before it and a cause warning; COMPLETE carries no cause; without the feature nothing is reported. |
| Grammar.AdvanceKeepsParse | kubling_sqlalchemy/transport/client.py:275-372 | Every accepted response keeps the partial parse a prefix of the grammar: keys only after their update, extra primaries only when accepted. |
| ExecutionStreams.ExecutionStream.Next | kubling_sqlalchemy/transport/client.py:221-240 | One call hands out the first event of the transcript ahead, or raises what stands there; a protocol error closes and cancels, an RPC error leaves the stream as it is, and nothing follows completion. |
| ExecutionStreams.ExecutionStream.Dispatch | kubling_sqlalchemy/transport/client.py:225-237 | The handlers, which work on counters and id sets, do what the grammar says of the response. |
| ExecutionStreams.ExecutionStream.NextResponse | kubling_sqlalchemy/transport/client.py:259-273 | The response is taken off the call and refused exactly when a size or row limit is exceeded. |
| ExecutionStreams.ExecutionStream.StartResultSet | kubling_sqlalchemy/transport/client.py:275-324 | The id, role, parent, acceptance and column checks agree with the grammar, and the counters with the new parse. |
| ExecutionStreams.ExecutionStream.AddRows | kubling_sqlalchemy/transport/client.py:326-343 | Rows are decoded under the open columns and counted, or the batch is refused as a whole. |
| ExecutionStreams.ExecutionStream.Update | kubling_sqlalchemy/transport/client.py:345-362 | An update takes the next id and a primary slot and has at least one selected count. |
| ExecutionStreams.ExecutionStream.EndResultSet | kubling_sqlalchemy/transport/client.py:364-372 | A set ends only under its own id and with the number of rows streamed. |
| ExecutionStreams.ExecutionStream.FinishExecution | kubling_sqlalchemy/transport/client.py:374-403 | The terminal event succeeds only if the call then ends cleanly; any further response or an RPC error leaves the stream incomplete. |
| ExecutionStreams.ExecutionStream.Close | kubling_sqlalchemy/transport/client.py:242-251 | Closing cancels the call exactly when the stream had not completed. |
| RowTheorems.RowAcceptance | kubling_sqlalchemy/transport/client.py:330-341 | A row is accepted exactly when it has one value per column, each decodes under its column and every nested value needs only accepted features; its cells are then those decoded values in order. |
| RowTheorems.ValueAcceptance | kubling_sqlalchemy/transport/client.py:533-542 | The recursive value check accepts exactly the values all of whose nested values need only accepted features. |
| RowTheorems.ColumnAcceptance | kubling_sqlalchemy/transport/client.py:300-320 | A column is accepted exactly when it declares a type that is well formed, supported at every level, within the depth limit and, if an array, accepted; it keeps its name and type. |
| RowTheorems.EndIsDeliveredExactly | kubling_sqlalchemy/transport/client.py:374-452 | After the responses of any sentence, a last response with an end completes the stream exactly when it counts the results, carries a sound status and reports what was negotiated and delivered; the outcome handed out last is then what it says. |
| RowTheorems.UpdateRowcountAdds | kubling_sqlalchemy/dbapi/cursor.py:357-361 | Counts of consecutive updates add up, one unknown count makes the whole unknown, and a single count is itself. |
| RowTheorems.TimestampAdaptationIsLossless | kubling_sqlalchemy/dbapi/cursor.py:367-378 | An adapted local timestamp keeps its day and its instant as a naive datetime; the wrapper is kept only when its fraction is finer than microseconds. |
| Descriptors.OutputDescriptorAcceptance | kubling_sqlalchemy/transport/client.py:520-531 | The repeated recursion accepts exactly the well-formed descriptors all of whose levels are supported, no deeper than the limit, with arrays accepted if there are any. |
| Descriptors.InputDescriptorAcceptance | kubling_sqlalchemy/transport/client.py:1244-1260 | The input recursion accepts exactly the well-formed descriptors all of whose levels are supported, no deeper than the limit. |
| Descriptors.ValidationIsWellFormedness | kubling_sqlalchemy/transport/codec.py:232-259 | The recursive validator accepts exactly the descriptors each of whose levels is well formed. |
| Descriptors.DescriptorDimensions | kubling_sqlalchemy/transport/codec.py:262-269 | The loop returns the array depth, one less than the number of levels, and fails exactly on malformed descriptors. |
| CodecTheorems.RoundTrip | kubling_sqlalchemy/transport/codec.py:291-300 | For every descriptor and every accepted value, nested arrays and nulls included: the wire value is well typed at every depth and decodes to the canonical form exactly when its LOB references agree with the types they stand under, and is refused otherwise. |
| CodecTheorems.RoundTripAll | kubling_sqlalchemy/transport/codec.py:609-614 | The same for all elements of an array together. |
| CodecTheorems.ComesBackWithItsContent | kubling_sqlalchemy/transport/codec.py:353-615 | What is encoded under a declared type and decoded again holds the same text, bytes, number, day or instant as before, at every depth of an array, and is of the kind the type brings back. |
| CodecTheorems.EncodesExactly | kubling_sqlalchemy/transport/codec.py:510-615 | Under a well-formed scalar type exactly null and the values of that type's Python kinds, in range, are encoded; anything else is a codec error, except an integer too large for a float. |
| CodecTheorems.EncodesUndeclaredExactly | kubling_sqlalchemy/transport/codec.py:291-350 | Unbound, every value is encoded but other objects, lists, infinite decimals and aware times. |
| CodecTheorems.ArraysEncodeInOrder | kubling_sqlalchemy/transport/codec.py:600-614 | A list or array is encoded exactly when it has the declared element type and each element is encoded under it, each in its place. |
| CodecTheorems.ArraysDecodeInOrder | kubling_sqlalchemy/transport/codec.py:426-439 | An array decodes exactly when the declared type is an array of its element type and each element decodes, each in its place. |
| CodecTheorems.DecodedIsHeld | kubling_sqlalchemy/transport/codec.py:353-453 | A decoded value is the one its wire kind holds, and the wire kind is the one of the declared type. |
| CodecTheorems.DecodedFits | kubling_sqlalchemy/transport/codec.py:353-453 | What is decoded under a type is null exactly for a null, and otherwise of the kind and in the range that type brings back. |
| CodecTheorems.DecodedReencodes | kubling_sqlalchemy/transport/codec.py:353-615 | A decoded value, encoded again under the same type, gives the same wire value, for all kinds that have one spelling each. |
| CodecTheorems.ScalarRoundTrip | kubling_sqlalchemy/transport/codec.py:510-599 | The same under every type other than ARRAY, where only LOB references can be refused. |
| CodecTheorems.MismatchedLobReference | kubling_sqlalchemy/transport/codec.py:573-580 | A CLOB reference encodes under BLOB and does not decode: the condition of the round trip is needed. |
| CodecTheorems.CanonicalEncodesAlike | kubling_sqlalchemy/transport/codec.py:353-453 | The canonical form is a legal value again and re-encodes to the same wire value. |
| CodecTheorems.DecodedIsWellTyped | kubling_sqlalchemy/transport/codec.py:640-678 | Decoding under a type succeeds only for values that fit it at every depth. |
| CodecTheorems.InferredTypeIsNeutral | kubling_sqlalchemy/transport/codec.py:465-507 | Encoding a value under the descriptor inferred from its undeclared encoding gives the same wire value, and that descriptor is well formed. |
| CodecTheorems.NarrowestInteger | kubling_sqlalchemy/transport/codec.py:306-311 | Undeclared integers take the narrowest of INTEGER, LONG and BIGINTEGER and decode to the same number. |
| CodecTheorems.CollectValueFeatures | kubling_sqlalchemy/transport/codec.py:681-690 | The features collected are those of all nested wire values, added to the ones given. |
| Numerals.ParseIntOfText | kubling_sqlalchemy/transport/codec.py:381-385 | The text of every integer reads back as that integer. |
| LocalTimes.TimeRoundTrip | kubling_sqlalchemy/transport/codec.py:106-122 | Every naive time survives the trip through its local-time text. |
| LocalTimes.TimestampRoundTrip | kubling_sqlalchemy/transport/codec.py:134-142 | Every naive datetime survives the trip through its local-timestamp text. |
| LocalTimes.ToTimeIsExact | kubling_sqlalchemy/transport/codec.py:112-122 | A local time converts exactly when its digits beyond the sixth are zero, and then denotes the same instant. |
| LocalTimes.ParseOfTimeText | kubling_sqlalchemy/transport/codec.py:693-699 | Printing a time and matching the text recovers every field. |
| LocalTimes.ParseOfDateText | kubling_sqlalchemy/transport/codec.py:708-711 | Printing a date and parsing it back recovers it. |
| LocalTimes.PiecesOfParse | kubling_sqlalchemy/transport/codec.py:693-699 | Conversely, whatever matches is two digits each of hours, minutes and seconds in range, and a fraction of at most nine digits. |
| LocalTimes.TimestampMeans | kubling_sqlalchemy/transport/codec.py:702-715 | A text is a local timestamp exactly when it is a day of the calendar as it is printed, a T, and a local time, and it is read as those two. |
| Fetching.AdaptationIsLossless | kubling_sqlalchemy/dbapi/cursor.py:367-378 | An adapted local time keeps its instant, and the wrapper is kept exactly when that is impossible. |
| Fetching.FetchingConservesRows | kubling_sqlalchemy/dbapi/cursor.py:164-188 | For every interleaving of fetches, with anything else happening on the connection in between: rows handed out followed by the rest are the rows streamed while the result is open, all of them at exhaustion, and a prefix after a failure; row count and report are those of the stream's end. |
| Fetching.ShortAnswerExhausts | kubling_sqlalchemy/dbapi/cursor.py:164-188 | A fetch answered with fewer rows than it asked for leaves the result exhausted. |
| Fetching.BatchingIsInvisible | kubling_sqlalchemy/dbapi/cursor.py:238-254 | Two streams with the same rows in different batches, empty ones included, give the same answers, errors, row counts, reports and logs to every interleaving of fetches. |
| BatchingTheorems.BatchingIsInvisibleToPrograms | kubling_sqlalchemy/dbapi/cursor.py:238-254 | Two whole programs that make the same calls and whose servers cut the same rows into different batches get the same answer to every call and end with the same cursors, transaction and log. |
| BatchingTheorems.RebatchedOpensAlike | kubling_sqlalchemy/transport/client.py:326-343 | Opening an execution comes to the same error, columns, pending rows and end whatever the batches. |
| Fetching.FutureOfBatches | kubling_sqlalchemy/transport/client.py:326-343 | What lies ahead of a run of batches is their joined rows and then what lies ahead of the rest. |
| Fetching.AlikeReads | kubling_sqlalchemy/transport/client.py:326-372 | Parses that differ only in batch boundaries read every continuation alike. |
| CursorStreams.SingleResultOpening | kubling_sqlalchemy/dbapi/cursor.py:221-236 | Accepting neither extra results nor keys, a stream is one query, one update or no result and its end: the invalid-event branches cannot be taken. |
| CursorStreams.AnnouncedCount | kubling_sqlalchemy/transport/client.py:364-372 | The row count announced for the open set is the number of rows it has, and a successful end is preceded by one. |
| CursorStreams.ExhaustionIsComplete | kubling_sqlalchemy/dbapi/cursor.py:238-263 | Once fetching reports exhaustion, the rows handed out are all the rows streamed and the row count is their number. |
| CursorStreams.NothingOpenYieldsNothing | kubling_sqlalchemy/dbapi/cursor.py:315-320 | Without an open result no interleaving of fetches hands out a row or changes anything. |
| OperationTheorems.FetchTakesTheFirstRows | kubling_sqlalchemy/dbapi/cursor.py:164-188 | With enough rows to come a fetch hands out as many of the first ones as it asks for and leaves the others; a negative size is refused and takes nothing. |
| OperationTheorems.FetchToTheEndSays | kubling_sqlalchemy/dbapi/cursor.py:238-270 | A fetch that asks for more than is to come hands out all of it if the end has the status the mode and the transaction call for, and raises what went wrong otherwise; row count, report, recorded state and log afterwards are given. |
| OperationTheorems.FetchWithoutRowsSays | kubling_sqlalchemy/dbapi/cursor.py:308-313 | Without an open result a fetch changes nothing: it answers with no row after the end, and raises the failure or the lack of a result otherwise. |
| DbApi.Cursor.FetchOne | kubling_sqlalchemy/dbapi/cursor.py:164-169 | Answers as taking one row from the plain list of rows ahead, whatever is buffered: error, rows, columns, row count, report and log are those of the plain list, and every invariant of the connection is kept. |
| DbApi.Cursor.FetchMany | kubling_sqlalchemy/dbapi/cursor.py:171-180 | Answers as taking up to that many rows, or `arraysize` of them, from the plain list, with the argument errors in the order of the code: error, rows, columns, row count, report and log are those of the plain list, and every invariant of the connection is kept. |
| DbApi.Cursor.FetchAll | kubling_sqlalchemy/dbapi/cursor.py:182-188 | Answers as taking the whole list, or its failure: error, rows, columns, row count, report and log are those of the plain list, and every invariant of the connection is kept. |
| DbApi.Cursor.FillRows | kubling_sqlalchemy/dbapi/cursor.py:238-254 | The buffer meets the target without touching anything else, or all remaining rows are buffered and the end or failure has been observed once: status, report and log entry included. |
| DbApi.Cursor.Pull | kubling_sqlalchemy/dbapi/cursor.py:241-254 | One turn keeps the rows ahead and the way the result will settle, its report included; it shortens the stream or settles the result. A stray end of iteration and a foreign event are impossible. |
| DbApi.Cursor.Finish | kubling_sqlalchemy/dbapi/cursor.py:256-263 | An end is recorded and the slot freed only if the connection accepts its status; otherwise nothing changes. |
| DbApi.Cursor.Conclude | kubling_sqlalchemy/dbapi/cursor.py:250-276 | An accepted end leaves its report and a refused one its error, with exactly that entry in the log. |
| DbApi.Cursor.Fail | kubling_sqlalchemy/dbapi/cursor.py:265-276 | A failure closes the stream, frees the slot, is observed by the connection and remembered; buffered rows, the row count and the report stay. |
| DbApi.Cursor.DiscardPending | kubling_sqlalchemy/dbapi/cursor.py:278-284 | The stream is cancelled, the buffer emptied and the slot freed if it was this cursor's. |
| DbApi.Cursor.DiscardByConnection | kubling_sqlalchemy/dbapi/cursor.py:286-295 | The result is gone as if never executed, and the cancelled execution is logged. |
| DbApi.Cursor.ResetResult | kubling_sqlalchemy/dbapi/cursor.py:297-307 | Nothing of an earlier result is left. |
| DbApi.Cursor.ReadInitialResult | kubling_sqlalchemy/dbapi/cursor.py:221-236 | Reads up to the first result set or the end as the transcript says, report and log included; the invalid-event branch is dead. |
| DbApi.Cursor.Execute | kubling_sqlalchemy/dbapi/cursor.py:112-135 | The error raised, the columns, the result with its report, and the whole log are those of the specification over the transaction fields and the server's replies; the connection stays valid even when it fails. |
| DbApi.Cursor.ExecuteMany | kubling_sqlalchemy/dbapi/cursor.py:137-162 | The error, the cursor and the whole log are those of executing the parameter sequences one after the other, with the total as row count; the first error stops it, and a row-producing statement is cancelled and refused. |
| ExecutionTheorems.ExecuteManyAddsUp | kubling_sqlalchemy/dbapi/cursor.py:145-162 | Success means that every execution succeeded, and exactly that; the row count is then the sum of theirs, or -1 when one is unknown; otherwise the cursor and log are as the first failing execution left them. |
| OperationTheorems.ExecuteManyOfOne | kubling_sqlalchemy/dbapi/cursor.py:147-156 | `executemany` with one parameter sequence is `execute` with it, except that a result set is cancelled and refused. |
| OperationTheorems.ExecuteManyOfMore | kubling_sqlalchemy/dbapi/cursor.py:145-162 | `executemany` with more sequences is one after the other: the first failure decides and is left as it is, and otherwise the counts are added, or unknown when one is. |
| OperationTheorems.ExecuteGoesOut | kubling_sqlalchemy/dbapi/cursor.py:121-135 | An execution that may be sent is sent once under the settled transaction; if the call fails, so does it, and otherwise a result stays open or one entry says how it ended. |
| OperationTheorems.ExecuteInBlockedTransaction | kubling_sqlalchemy/dbapi/connection.py:268-273 | In a transaction that is rollback-only, unknown or past its commit, `execute` raises OperationalError, sends nothing and empties the cursor. |
| OperationTheorems.ExecuteThatCannotBegin | kubling_sqlalchemy/dbapi/connection.py:261-267 | Without a transaction one is begun if the server offers it; a refusal, a failure or an empty identifier is raised, logged, and leaves none held. |
| OperationTheorems.ExecuteOnBusyConnection | kubling_sqlalchemy/dbapi/connection.py:276-282 | While another cursor has an unfinished execution, `execute` is refused unsent, and a transaction begun for it stays. |
| OperationTheorems.ExecuteThatIsNotSendable | kubling_sqlalchemy/dbapi/cursor.py:121-134 | A request the server did not agree to take is not sent; the cursor is emptied, the transaction kept, and the error is one of three kinds. |
| OperationTheorems.ConformingUpdateReachesTheCaller | kubling_sqlalchemy/dbapi/cursor.py:221-236 | An execution answered by a conforming update, or by no result, returns finished, with the rows affected, the server's report and the recorded state, exactly when the end has the status called for; otherwise it raises InternalError. |
| DbApi.Cursor.SetArraysize | kubling_sqlalchemy/dbapi/cursor.py:90-94 | Only a positive size is taken, and nothing else changes. |
| DbApi.Cursor.Close | kubling_sqlalchemy/dbapi/cursor.py:190-196 | The cursor leaves the connection; a running execution is cancelled and no other cursor is touched. |
| DbApi.Connection.TransactionForExecute | kubling_sqlalchemy/dbapi/connection.py:257-274 | The identifier to execute under, with a transaction begun only if none is held and one is needed; every refusal leaves the fields alone. |
| DbApi.Connection.ClaimExecution | kubling_sqlalchemy/dbapi/connection.py:276-282 | The slot is given only if it is free or already this cursor's. |
| DbApi.Connection.ObserveExecutionEnd | kubling_sqlalchemy/dbapi/connection.py:296-314 | Accepts an end, and logs it, only with the status the mode and the execution's own transaction require; otherwise nothing changes. |
| DbApi.Connection.ObserveError | kubling_sqlalchemy/dbapi/connection.py:316-340 | Records the outcome an error names for the held transaction, or that it is unknown. |
| DbApi.Connection.ValidateTerminalStatus | kubling_sqlalchemy/dbapi/connection.py:342-351 | A status other than the expected one is recorded and reported. |
| DbApi.Connection.Commit | kubling_sqlalchemy/dbapi/connection.py:79-104 | Error, fields and log exactly: one commit call when a transaction is held, not rollback-only and not yet committed, none otherwise; afterwards no cursor holds a stream, and the one that did has no result. |
| DbApi.Connection.Rollback | kubling_sqlalchemy/dbapi/connection.py:106-124 | Error, fields and log exactly: one rollback call when a transaction is held; afterwards no cursor holds a stream, and the one that did has no result. |
| DbApi.Connection.SetAutocommit | kubling_sqlalchemy/dbapi/connection.py:177-187 | Switching on does exactly what a commit does, and then switches if that succeeded; switching off changes the mode and leaves a running execution running. |
| DbApi.Connection.Close | kubling_sqlalchemy/dbapi/connection.py:136-171 | Every cursor is closed, a transaction known to be open is rolled back, the session is logged out whatever happened, and the first error is reported; the log is exactly that. |
| DbApi.Connection.DiscardActiveResult | kubling_sqlalchemy/dbapi/connection.py:292-294 | The only execution that can be running is cancelled, its cursor has no result, and every cursor of the connection is idle. |
| DbApi.Connection.NewCursor | kubling_sqlalchemy/dbapi/connection.py:70-77 | A fresh, registered, idle cursor, or an error on a closed connection. |
| OperationTheorems.CommitSays | kubling_sqlalchemy/dbapi/connection.py:79-104 | A commit sends exactly one Commit naming the held transaction, after cancelling what runs, unless none is held, it is rollback-only or had its commit; only a reply that names it as committed succeeds, and what is held and recorded after any other reply is given. |
| OperationTheorems.RollbackSays | kubling_sqlalchemy/dbapi/connection.py:106-124 | A rollback sends exactly one Rollback naming the held transaction, whatever its recorded state; only a reply that names it as rolled back succeeds. |
| OperationTheorems.CloseSays | kubling_sqlalchemy/dbapi/connection.py:136-171 | Closing sends a Rollback exactly when a held transaction is known to be open, then the logout, and nothing else; the first failure is raised and the connection is closed. |
| OperationTheorems.SwitchSays | kubling_sqlalchemy/dbapi/connection.py:177-187 | Switching to autocommit is a commit and then the switch, or the failed commit alone; switching off and setting the same mode send nothing. |
| OperationTheorems.TerminalReplyMeans | kubling_sqlalchemy/transport/client.py:931-965 | A reply to commit or rollback is a status exactly when it reports success with a status whose state and identifier do not contradict each other. |
| OperationTheorems.EndingLeavesOtherCursors | kubling_sqlalchemy/dbapi/connection.py:292-294 | Commit, rollback and the switch take the result of the cursor whose execution ran, and leave every other cursor as it was. |
| OperationTheorems.CloseCursorSays | kubling_sqlalchemy/dbapi/cursor.py:190-196 | Closing a cursor cancels its own running execution and touches no other cursor and no transaction. |
| OperationTheorems.ClosedConnectionRefuses | kubling_sqlalchemy/dbapi/connection.py:358-360 | On a closed connection every call but closing again and setting the array size raises InterfaceError and changes nothing. |
| OperationTheorems.ClosedCursorRefuses | kubling_sqlalchemy/dbapi/cursor.py:315-318 | A closed cursor neither executes nor fetches. |
| OperationTheorems.NewCursorSays | kubling_sqlalchemy/dbapi/connection.py:70-77 | A new cursor has no result, count or report and fetches one row at a time; the others stay as they are. |
| Clients.Program | kubling_sqlalchemy/dbapi/connection.py:43-171 | Every program of public calls over one connection and its cursors, with any server replies: each call answers, and leaves every cursor, the transaction and the log, as the machine of `Worlds` says; the heap-wide invariant holds throughout and the log is legal. |
| WorldTheorems.NothingOldAfterEnding | kubling_sqlalchemy/dbapi/connection.py:79-124 | In every program, after a commit, a rollback, a switch to autocommit or the close, successful or not, no cursor hands out a row until its own next execution, whatever the other cursors do. |
| WorldTheorems.RowsBelongToTheirExecution | kubling_sqlalchemy/dbapi/cursor.py:238-263 | In every program, from an execution to the cursor's next one: rows handed out are the first ones streamed in reply; with those pending they are all of them; at exhaustion none is missing, the row count is their number and the report is the stream's, whatever mode switches, commits and other cursors come in between. |
| CellTheorems.HandedRowsHoldTheServersCells | kubling_sqlalchemy/dbapi/cursor.py:238-254 | In every program and for every reply, cut off or failing ones included: row r handed out for an execution has in column c what the c-th cell of the r-th row of the reply's batches decodes to under the c-th column of its start, a local time or timestamp possibly as the Python value of the same instant. |
| CellTheorems.ConformingQueryCells | kubling_sqlalchemy/dbapi/cursor.py:238-254 | For a conforming query that is fetched whole, the answer has one row per row of the batches and cell (r, c) is the decoded wire cell (r, c); columns, row count and report are the server's. |
| DeliveryTheorems.ConformingQueryReachesTheCaller | kubling_sqlalchemy/dbapi/cursor.py:112-135 | In any world, an execution that is sent and answered by a conforming query succeeds with the query's columns; fetching all rows then returns every row of every batch, their number and the server's report, exactly when the status at the end fits, and fails otherwise. |
| DeliveryTheorems.ConformingQueryOpens | kubling_sqlalchemy/dbapi/cursor.py:221-236 | A conforming query opens with its columns, and with all its rows, their count and its outcome ahead. |
| WorldTheorems.PartialIsNeverSilentAtTheCursor | kubling_sqlalchemy/dbapi/cursor.py:256-263 | In every program a cursor reports a partial result only if the feature was accepted, the caller allowed it, a query was read to its end and a cause is attached; a complete one has no cause, and before an end nothing is reported. |
| WorldTheorems.EveryProgramIsSound | kubling_sqlalchemy/dbapi/connection.py:276-286 | In every program at most one cursor has an unfinished result, closed cursors and connections have none, and every report fits the terms of the connection. |
| LogTheorems.EveryProgramIsLegal | kubling_sqlalchemy/dbapi/connection.py:79-187 | The log of every program is legal and leads to the connection's fields, so every theorem about legal logs is one about programs. |
| LogTheorems.NoProgramRetriesACommit | kubling_sqlalchemy/dbapi/connection.py:79-104 | In every program, between any two commits sent another transaction was begun. |
| LogTheorems.HeldIdentifiersAreSound | kubling_sqlalchemy/dbapi/connection.py:257-274 | In every program a held identifier is not empty, none is held in autocommit, and without one no state and no commit is recorded. |
| WorldTheorems.SilentUntilExecuted | kubling_sqlalchemy/dbapi/connection.py:292-294 | A cursor with no open result hands out nothing until it executes again, in every program. |
| TransactionTheorems.WellBracketed | kubling_sqlalchemy/dbapi/connection.py:257-274 | In every log: Begin goes out only when nothing is open, Execute carries the open identifier or the empty one in autocommit, Commit and Rollback name the open one. |
| TransactionTheorems.HeldIsOpenBracket | kubling_sqlalchemy/dbapi/connection.py:316-356 | The held identifier is the last one begun and not since ended by a status or error naming it in a terminal state. |
| TransactionTheorems.CommitOncePerTransaction | kubling_sqlalchemy/dbapi/connection.py:87-104 | Between any two commits of a log another transaction was begun: no commit is ever retried. |
| TransactionTheorems.NoExecuteAfterOpenCommit | kubling_sqlalchemy/dbapi/connection.py:268-271 | After a commit that did not end the transaction no Execute goes out until something ends it. |
| TransactionTheorems.RollbackOnlyPersists | kubling_sqlalchemy/dbapi/connection.py:85-90 | From ROLLBACK_ONLY until a rollback or the logout the transaction fields do not change and neither Execute nor Commit is sent. |
| TransactionTheorems.RecordedStateIsLastTold | kubling_sqlalchemy/dbapi/connection.py:296-351 | While a transaction is held, the recorded state is the one told last by a reply, an end or a failure, over every legal log. |
| TransactionTheorems.ReportedRollbackOnlyBlocks | kubling_sqlalchemy/dbapi/connection.py:314 | After an execution whose end reports ROLLBACK_ONLY, no Execute and no Commit is sent before a Rollback or the logout. |
| TransactionTheorems.FailedRollbackOnlyBlocks | kubling_sqlalchemy/dbapi/connection.py:335 | The same after a failure that names the held transaction as rollback-only. |
| TransactionTheorems.UnknownBlocksExecution | kubling_sqlalchemy/dbapi/connection.py:268-271 | Once the state of a held transaction is unknown, after a failed rollback for example, no Execute is sent before something ends the transaction or tells another state. |
| TransactionTheorems.OneExecutionAtATime | kubling_sqlalchemy/dbapi/connection.py:276-286 | Between any two executions of a log the first one finished, failed or was discarded. |
| TransactionTheorems.SwitchedExecutionCannotFinish | kubling_sqlalchemy/dbapi/connection.py:296-314 | An execution sent in autocommit can no longer finish once autocommit is switched off. |
| TransactionTheorems.FinishExactly | kubling_sqlalchemy/dbapi/connection.py:296-314 | An end is accepted exactly when it reports the mode and the transaction the execution ran in. |
| DeliveryTheorems.ReadingToTheEndSucceedsExactly | kubling_sqlalchemy/dbapi/cursor.py:238-263 | Reading a result to its end succeeds, with all rows left, their count and the report, exactly when the status at the end fits the mode the connection is in by then and the transaction the result was executed in; otherwise it fails and the result is lost. |
| DeliveryTheorems.SwitchedResultCannotBeRead | kubling_sqlalchemy/dbapi/connection.py:177-187 | One reply, two programs: read in autocommit it succeeds, and with autocommit switched off in between it fails. |
| TransactionTheorems.CommitWithoutExecuteExactly | kubling_sqlalchemy/dbapi/connection.py:85-90 | Commit is possible where Execute is refused exactly in the unknown state before any commit. |
| TransactionTheorems.UnknownBeforeAnyCommit | kubling_sqlalchemy/dbapi/connection.py:316-340 | That state is reached: one failed execution that says nothing of its transaction leaves it unknown before any commit. |
| TransactionTheorems.NoneWhileHeldExactly | kubling_sqlalchemy/dbapi/connection.py:316-351 | In every log, NONE stands beside a held identifier exactly when the last entry that said anything about the open transaction recorded NONE for it without ending it. |
| TransactionTheorems.NoneDoesNotMeanIdle | kubling_sqlalchemy/dbapi/connection.py:349-351 | A legal log leaves NONE recorded with a transaction held: only the converse holds. |
| Transactions.AlwaysConsistent | kubling_sqlalchemy/dbapi/connection.py:58-68 | At every point of every log: autocommit holds no identifier, no identifier means NONE and no commit attempted, and a running execution runs under the held identifier or none. |
| TransactionTheorems.LogoutIsLast | kubling_sqlalchemy/dbapi/connection.py:160-169 | Nothing follows the logout. |
| Requests.SentExactly | kubling_sqlalchemy/transport/client.py:826-877 | A request goes out exactly when it has SQL, accepts only acceptable and advertised features, asks for partial results and generated keys openly, its arguments, plain, bound to a type or ready-made, come to parameters whose features and types the server takes, and its transaction, batch size and length are within what was agreed. |
| Requests.ArgumentArrives | kubling_sqlalchemy/transport/codec.py:272-288 | A value that is sent carries the type it was bound to, or the inferred one, and decodes under it to its canonical form exactly when its LOB references agree with that type; only an unbound null is untyped. |
| Requests.BindingInferredTypeIsNeutral | kubling_sqlalchemy/transport/codec.py:272-288 | Binding a value to the type that would be inferred sends the same parameter. |
| Requests.UnboundComesBack | kubling_sqlalchemy/transport/codec.py:291-350 | An unbound value that is neither null nor an array is sent typed and decodes to itself; only naive datetimes and times come back as the local wrappers of their text. |
| Requests.ArgumentsAreEncodedInOrder | kubling_sqlalchemy/transport/client.py:1268-1278 | Parameter i of a request is argument i, encoded. |
| Requests.FirstBadArgumentDecides | kubling_sqlalchemy/transport/client.py:1268-1278 | If the arguments cannot be encoded, the error is that of the first one that cannot. |
| Requests.RequiredFeaturesMean | kubling_sqlalchemy/transport/codec.py:456-462 | A parameter needs the typed, array, spatial and LOB features exactly when it is typed or has such a value nested in it. |
| Requests.NegotiatedTerms | kubling_sqlalchemy/dbapi/connection.py:240-241 | A DB-API connection accepts exactly those of four features the server advertises, and holds replies to the server's types and to the smaller of both sides' limits. |
| Requests.WhyNotSent | kubling_sqlalchemy/transport/client.py:826-877 | The error of a request that is not sent is that of the first thing it does not keep to, in the order of the checks, and among its parameters of the first. |
| Lobs.CompletesExactlyOnWholeReads | kubling_sqlalchemy/transport/client.py:571-605 | A read completes exactly on responses contiguous from the offset, within the chunk limit, ended by the last one and cleanly, and of the requested length; it then hands out all their data. |
| Lobs.ReadPieceByPiece | kubling_sqlalchemy/transport/client.py:571-605 | For any responses the reader hands out the data of each up to the first that does not go on where the ones before stopped, exceeds a limit or ends the read short; whether it completes or which error it raises is determined. |
| Lobs.ReadingIsSafe | kubling_sqlalchemy/transport/client.py:571-602 | For any responses the bytes handed out are contiguous from the offset and never exceed a requested length. |
| Lobs.LobReadStream.Next | kubling_sqlalchemy/transport/client.py:571-605 | One call hands out the next piece of the transcript or raises what stands there; a complete reader is never cancelled. |
| Lobs.LobReadStream.Close | kubling_sqlalchemy/transport/client.py:607-614 | Closing cancels exactly when the read had not completed. |
| Lobs.WriteRequests | kubling_sqlalchemy/transport/client.py:1280-1325 | The chunks sent are non-empty, within the limits, contiguous from zero and spell a prefix of the payload; each lies inside one element and is full or ends where it does. The writer succeeds exactly on byte payloads that fit, decode and have the declared size, and fails with a capability error exactly when a good element passes the size limit; after a codec error exactly the elements before the bad one were sent. |
| Lobs.WriteSource | kubling_sqlalchemy/transport/client.py:1311-1318 | One payload element is cut without gaps into full chunks and a last one, until it is used up or the next chunk would pass the size limit. |
| Lobs.WrittenIsReadBack | kubling_sqlalchemy/transport/client.py:571-605 | Chunks the writer produces, played back to the reader, return exactly what was written. |
| Lobs.RangeAdmitted | kubling_sqlalchemy/transport/client.py:998-1007 | A range is admitted exactly when it lies inside the referenced object, as far as its size is known, and the chunk size is within the limit; which of the two fails decides the error. |
| Lobs.RangedReadStaysInside | kubling_sqlalchemy/transport/client.py:998-1007 | A completed read of an admitted range has the requested length and stays inside the referenced object. |
| Lobs.ReachesTheEndExactly | kubling_sqlalchemy/transport/client.py:991-1031 | Of the reads that a reference of known size admits, exactly those asking for the rest by its length always end where the object ends; without a length, or with another one, some completed read does not. |

## Left out

- gRPC channels, TLS, deadlines, metadata, affinity tokens, login and capability refresh: input/output and configuration.
- `Connection.materialize_lob` and `write_lob` around the reader and the writer: only the range checks of `read_lob` and the chunk loops are modelled.
- `ping`, `setinputsizes` and `setoutputsize`, which change nothing, and `lastrowid`.
- `dialect.py` (URL options and a table of SQL type names), `reflection.py` (catalogue queries whose rows are grouped by name), release tools and scripts: they neither speak the protocol nor keep state between calls.
- The tables that pick a DB-API class for an RPC error by SQLSTATE, category and gRPC code: an RPC error keeps its details under one constructor.
- Column metadata other than the name and the declared type, `description`, vendor codes and the context of warnings.
- Serialized sizes: every response and request carries an arbitrary size.
- CodecTheorems.CanonicalEncodesAlike: rounding to single precision twice is taken to be rounding once (`RoundsOnce`); how floats round is not modelled.
- LocalTimes.ParseDate: only yyyy-MM-dd, the form the driver writes; other ISO forms that newer Pythons read in DATE values are not modelled.
- Numerals.ParseInt: ASCII digits and white space only, and no limit on the number of digits.
- Protobuf range checks when a message is built (64-bit sizes and expiries of LOB references) and lone surrogates in Python strings.
- Arguments of the wrong Python type (SQL that is no string, a size that is no int, a mode that is no bool): only the refusals that depend on values are modelled.
- The context managers and iteration of cursor and connection, which only call the methods modelled here.
- Begin, commit and rollback check the transaction feature before each call; only Begin's check is modelled, since an identifier is held only after it passed and features do not change.
- Interleavings of threads: the connection's lock makes each operation one step (of `executemany`, each execution).
