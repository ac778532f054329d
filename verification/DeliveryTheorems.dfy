/** A conforming reply reaches the caller of the DB-API whole, and exactly when its end is accepted. */
module DeliveryTheorems {
  import opened Wrappers
  import opened Errors
  import opened Codec
  import opened Protocol
  import opened Grammar
  import opened Transcripts
  import opened Transactions
  import opened Requests
  import opened Fetching
  import opened CursorStreams
  import opened Executions
  import opened ExecutionTheorems
  import opened Worlds
  import opened WorldTheorems
  import opened OperationTheorems

  // ---- when an end is accepted ----

  /**
   * Reading a result to its end succeeds exactly when the status at the end fits the mode
   * the connection is in by then, and the transaction the result was executed in.
   */
  lemma ReadingToTheEndSucceedsExactly(s: FetchState)
    requires s.shelf.Open? && s.shelf.future.tail.Concludes?
    ensures var (answer, after) := Fetching.Fetch(s, FetchAll);
            var outcome := s.shelf.future.tail.outcome;
            if StatusAccepted(s.ledger.tx, outcome.status, s.shelf.executedAs) then
              && answer == Success(s.shelf.future.rows)
              && after == FetchState(Exhausted, Count(s.shelf.future, s.rowcount), ReportOf(outcome),
                                     Enter(s.ledger, Action.Finish(outcome.status)))
            else
              answer == Failure(InternalError) && after.shelf == Lost(InternalError)
  {
    hide Enter;
  }

  // ---- a conforming query ----

  /** The rows of a result set's batches, decoded and adapted, in order. */
  function RowsOfBatches(cfg: Config, columns: seq<Column>, batches: seq<seq<WireRow>>): seq<Row>
    requires forall batch | batch in batches :: BatchOk(cfg, columns, batch)
  {
    if batches == [] then []
    else
      assert batches[0] in batches;
      AdaptRows(DecodeBatch(cfg, columns, batches[0])) + RowsOfBatches(cfg, columns, batches[1..])
  }

  function RowEvents(cfg: Config, columns: seq<Column>, batches: seq<seq<WireRow>>): (es: seq<Event>)
    requires forall batch | batch in batches :: BatchOk(cfg, columns, batch)
    ensures |es| == |batches|
  {
    seq(|batches|, i requires 0 <= i < |batches| => Event.Rows(1, DecodeBatch(cfg, columns, batches[i])))
  }

  lemma {:induction false} FutureOfRowEvents(
    cfg: Config, columns: seq<Column>, batches: seq<seq<WireRow>>, count: int, outcome: Outcome)
    requires forall batch | batch in batches :: BatchOk(cfg, columns, batch)
    ensures FutureOf(Transcript(RowEvents(cfg, columns, batches) + [SetEnded(1, count), Ended(outcome)], Completed))
            == Future(RowsOfBatches(cfg, columns, batches), Some(count), Concludes(outcome))
    decreases |batches|
  {
    hide BatchOk, DecodeBatch, AdaptRows;
    var end := [SetEnded(1, count), Ended(outcome)];
    var es := RowEvents(cfg, columns, batches) + end;
    if batches == [] {
      assert es == end && end[1..] == [Ended(outcome)];
    } else {
      FutureOfRowEvents(cfg, columns, batches[1..], count, outcome);
      assert RowEvents(cfg, columns, batches)[1..] == RowEvents(cfg, columns, batches[1..]);
      assert es[1..] == RowEvents(cfg, columns, batches[1..]) + end;
    }
  }

  /** The rows, the count and the end that lie ahead of a conforming query's result. */
  function QueryFuture(cfg: Config, b: Block, end: EndMessage): Future
    requires b.SetBlock? && BlockOk(cfg, b) && EndOk(cfg, [b], end)
  {
    Future(RowsOfBatches(cfg, DecodeColumns(cfg, b.columns), b.batches), Some(RowCount(b.batches)),
           Concludes(OutcomeOf(cfg, [b], end)))
  }

  /** What is delivered for a single query: its start, its batches, its end and the outcome. */
  lemma QueryTranscript(cfg: Config, b: Block, end: EndMessage, rs: seq<Response>)
    requires Conforms(cfg, [b], end, rs) && IsQuery(b)
    ensures BlockOk(cfg, b) && EndOk(cfg, [b], end)
    ensures var columns := DecodeColumns(cfg, b.columns);
            Whole(cfg, rs, Clean) ==
            Transcript([Started(1, columns, Query, None)]
                       + (RowEvents(cfg, columns, b.batches)
                          + [SetEnded(1, RowCount(b.batches)), Ended(OutcomeOf(cfg, [b], end))]), Completed)
  {
    hide BlockOk, EndOk, OutcomeOf, Spells, Read, RowCount, DecodeColumns, DecodeBatch;
    SentenceBlocks(cfg, [b]);
    assert b in [b];
    QueryBatches(cfg, b);
    ConformingIsDelivered(cfg, [b], end, rs);
    assert [b][..0] == [];
    assert Events(cfg, [b]) == BlockEvents(cfg, 1, b);
  }

  /** A conforming query opens with its columns, and with all its rows, their count and its end ahead. */
  lemma ConformingQueryOpens(cfg: Config, b: Block, end: EndMessage, rs: seq<Response>, id: string, l: Ledger)
    requires Conforms(cfg, [b], end, rs) && IsQuery(b)
    ensures BlockOk(cfg, b) && EndOk(cfg, [b], end)
    ensures OpenExecution(Whole(cfg, rs, Clean), id, -1, l)
            == Launched(None, DecodeColumns(cfg, b.columns),
                        FetchState(Shelf.Open(QueryFuture(cfg, b, end), id), -1, NO_REPORT, l))
  {
    hide Conforms, BlockOk, EndOk, OutcomeOf, Whole, RowCount, DecodeColumns, DecodeBatch, FutureOf, RowsOfBatches,
         RowEvents;
    QueryTranscript(cfg, b, end, rs);
    QueryBatches(cfg, b);
    var columns, outcome := DecodeColumns(cfg, b.columns), OutcomeOf(cfg, [b], end);
    FutureOfRowEvents(cfg, columns, b.batches, RowCount(b.batches), outcome);
    var rest := RowEvents(cfg, columns, b.batches) + [SetEnded(1, RowCount(b.batches)), Ended(outcome)];
    assert ([Started(1, columns, Query, None)] + rest)[1..] == rest;
  }

  lemma QueryBatches(cfg: Config, b: Block)
    requires b.SetBlock? && BlockOk(cfg, b)
    ensures ColumnsOk(cfg, b.columns)
    ensures forall batch | batch in b.batches :: BatchOk(cfg, DecodeColumns(cfg, b.columns), batch)
  {
    hide BatchOk, DecodeColumns;
  }

  // ---- from execute to fetchall ----

  /** The identifier an execution is sent under; nothing if it is refused before it is sent. */
  function SentUnder(w: World, call: Call): Option<string>
    requires SoundCall(w.terms, call) && Tried(w, call)
  {
    var d := w.desks[call.cursor];
    var admitted := AdmitUnder(w.terms.info, Dropped(w.ledger, d.shelf.Open?), call.reply.begin);
    if SlotTaken(w, call.cursor) || admitted.id.Failure? then None
    else if Refusal(w.terms.info, call.operation, ArgumentsOf(call.parameters), admitted.id.value, d.arraysize,
                    AcceptedOutputFeatures(w.terms.info), w.terms.allowPartial, false, call.reply.requestBytes).Some?
    then None
    else Some(admitted.id.value)
  }

  /** The ledger once the transaction to execute in is settled. */
  function AdmittedLedger(w: World, call: Call): Ledger
    requires Tried(w, call)
  {
    AdmitUnder(w.terms.info, Dropped(w.ledger, w.desks[call.cursor].shelf.Open?), call.reply.begin).ledger
  }

  lemma SendingLeavesFields(l: Ledger, id: string)
    ensures Enter(l, Action.Execute(id)).tx == l.tx
  {
  }

  /** The desk of a conforming query that was just executed. */
  ghost predicate QueryOpened(cfg: Config, d: Desk, b: Block, end: EndMessage, id: string)
    requires b.SetBlock? && BlockOk(cfg, b) && EndOk(cfg, [b], end)
  {
    && !d.closed && d.columns == DecodeColumns(cfg, b.columns) && d.rowcount == -1 && d.report == NO_REPORT
    && d.shelf == Shelf.Open(QueryFuture(cfg, b, end), id)
  }

  lemma QueryIsOpened(w: World, call: Call, b: Block, end: EndMessage, rs: seq<Response>)
    requires SoundCall(w.terms, call) && Tried(w, call) && SentUnder(w, call).Some?
    requires call.reply.call == CallAccepted(rs, Clean) && Conforms(Reader(w.terms), [b], end, rs) && IsQuery(b)
    ensures BlockOk(Reader(w.terms), b) && EndOk(Reader(w.terms), [b], end)
    ensures var m := Step(w, call);
            && m.answer == Success([]) && !m.world.closed
            && QueryOpened(Reader(w.terms), m.world.desks[call.cursor], b, end, SentUnder(w, call).value)
            && m.world.ledger.tx == AdmittedLedger(w, call).tx
  {
    hide Conforms, Refusal, AdmitUnder, AcceptedOutputFeatures, Reader, OpenExecution, Enter, Whole, SlotTaken,
         QueryFuture, SoundArgument;
    var id := SentUnder(w, call).value;
    var l := AdmittedLedger(w, call);
    ConformingQueryOpens(Reader(w.terms), b, end, rs, id, Enter(l, Action.Execute(id)));
    SendingLeavesFields(l, id);
  }

  /** Fetching all rows of a query that was just opened. */
  lemma QueryIsRead(w: World, i: nat, cfg: Config, b: Block, end: EndMessage, id: string)
    requires i < |w.desks| && !w.closed && b.SetBlock? && BlockOk(cfg, b) && EndOk(cfg, [b], end)
    requires QueryOpened(cfg, w.desks[i], b, end, id)
    ensures var rows := RowsOfBatches(cfg, DecodeColumns(cfg, b.columns), b.batches);
            var read := FetchStep(w, i, FetchAll);
            && |rows| == RowCount(b.batches)
            && if StatusAccepted(w.ledger.tx, end.transaction.value, id) then
                 && read.answer == Success(rows)
                 && read.world.desks[i].rowcount == |rows|
                 && read.world.desks[i].report == ReportOf(OutcomeOf(cfg, [b], end))
               else
                 read.answer == Failure(InternalError)
  {
    hide Fetching.Fetch, StatusAccepted, RowsOfBatches, BlockOk, DecodeOutcome, DecodeStatus, Sentence, RowCount,
         DecodeColumns;
    QueryBatches(cfg, b);
    ReadingToTheEndSucceedsExactly(Seated(w.desks[i], w.ledger));
    RowsAreCounted(cfg, DecodeColumns(cfg, b.columns), b.batches);
  }

  /**
   * An execution that is sent and answered by a conforming query succeeds, with the
   * query's columns. The next call, if it fetches all rows, returns every row the server
   * streamed, and leaves their number and the server's report, exactly when the status at
   * the end fits; otherwise it fails, and no row is returned.
   */
  lemma ConformingQueryReachesTheCaller(w: World, call: Call, b: Block, end: EndMessage, rs: seq<Response>)
    requires SoundCall(w.terms, call) && Tried(w, call) && SentUnder(w, call).Some?
    requires call.reply.call == CallAccepted(rs, Clean) && Conforms(Reader(w.terms), [b], end, rs) && IsQuery(b)
    ensures BlockOk(Reader(w.terms), b) && EndOk(Reader(w.terms), [b], end)
    ensures var cfg, i := Reader(w.terms), call.cursor;
            var sent := Step(w, call);
            var read := Step(sent.world, Call.Fetch(i, FetchAll));
            var rows := RowsOfBatches(cfg, DecodeColumns(cfg, b.columns), b.batches);
            && sent.answer == Success([])
            && sent.world.desks[i].columns == DecodeColumns(cfg, b.columns)
            && |rows| == RowCount(b.batches)
            && if StatusAccepted(sent.world.ledger.tx, end.transaction.value, SentUnder(w, call).value) then
                 && read.answer == Success(rows)
                 && read.world.desks[i].rowcount == |rows|
                 && read.world.desks[i].report == ReportOf(OutcomeOf(cfg, [b], end))
               else
                 read.answer == Failure(InternalError)
  {
    hide Conforms, Reader, ExecuteStep, FetchStep, StatusAccepted, SlotTaken, Usable, SentUnder, RowsOfBatches, BlockOk,
         EndOk, QueryOpened;
    QueryIsOpened(w, call, b, end, rs);
    QueryIsRead(Step(w, call).world, call.cursor, Reader(w.terms), b, end, SentUnder(w, call).value);
    QueryHasColumns(Reader(w.terms), Step(w, call).world.desks[call.cursor], b, end, SentUnder(w, call).value);
  }

  lemma QueryHasColumns(cfg: Config, d: Desk, b: Block, end: EndMessage, id: string)
    requires b.SetBlock? && BlockOk(cfg, b) && EndOk(cfg, [b], end) && QueryOpened(cfg, d, b, end, id)
    ensures d.columns == DecodeColumns(cfg, b.columns)
  {
  }

  lemma {:induction false} RowsAreCounted(cfg: Config, columns: seq<Column>, batches: seq<seq<WireRow>>)
    requires forall batch | batch in batches :: BatchOk(cfg, columns, batch)
    ensures |RowsOfBatches(cfg, columns, batches)| == RowCount(batches)
  {
    hide BatchOk, DecodeBatch, AdaptRows;
    if batches != [] {
      assert batches[0] in batches;
      RowsAreCounted(cfg, columns, batches[1..]);
      CountFromTheFront(batches);
    }
  }

  lemma {:induction false} CountFromTheFront(batches: seq<seq<WireRow>>)
    requires batches != []
    ensures RowCount(batches) == |batches[0]| + RowCount(batches[1..])
  {
    var n := |batches| - 1;
    if n == 0 {
      assert batches[..0] == [] && batches[1..] == [];
    } else {
      CountFromTheFront(batches[..n]);
      assert batches[..n][1..] == batches[1..][..n - 1];
    }
  }

  // ---- a result opened in autocommit, read after the switch ----

  /** A server without features, and a connection that asks for nothing special. */
  function PlainTerms(lib: Library): Terms {
    Terms(ServerInfo(lib, {}, {}, {}, 0, 0, 0, 0, 0, 0, 1, 0, 0), false)
  }

  const NO_ROWS := SetBlock(Query, [], [])

  const AUTOCOMMITTED := EndMessage(1, Some(Status("", StateNone)), Unspecified, [], 0)

  /** One query without rows, ended as an autocommit execution ends. */
  const NO_ROWS_REPLY: seq<Response> := [
    Response(StartEvent(1, Query, None, []), 0, 0),
    Response(SetEndEvent(1, 0), 0, 0),
    Response(EndEvent(AUTOCOMMITTED), 0, 0)]

  const RUN_QUERY := Call.Execute(
    0, "SELECT", Absent, ExecuteReply(BeginReplied("t"), 0, CallAccepted(NO_ROWS_REPLY, Clean)))

  const SWITCH_OFF := Call.SetAutocommit(false, TxReplied(true, None))

  lemma NoRowsReplyConforms(lib: Library)
    ensures Conforms(Reader(PlainTerms(lib)), [NO_ROWS], AUTOCOMMITTED, NO_ROWS_REPLY)
  {
    var cfg := Reader(PlainTerms(lib));
    assert [NO_ROWS][..0] == [];
    assert Wire([NO_ROWS]) == BlockWire(1, NO_ROWS);
    assert BlockWire(1, NO_ROWS) == [StartEvent(1, Query, None, []), SetEndEvent(1, 0)];
    assert Primaries([NO_ROWS]) == 1;
    assert Sentence(cfg, [NO_ROWS]);
    assert EndOk(cfg, [NO_ROWS], AUTOCOMMITTED);
    assert Spells(cfg, NO_ROWS_REPLY, Wire([NO_ROWS]) + [EndEvent(AUTOCOMMITTED)]);
  }

  /** A new connection in autocommit with its one cursor. */
  function OneCursor(lib: Library): World {
    Step(Initial(PlainTerms(lib), true), NewCursor).world
  }

  lemma QueryIsSent(lib: Library)
    ensures Tried(OneCursor(lib), RUN_QUERY) && SoundCall(PlainTerms(lib), RUN_QUERY)
    ensures SentUnder(OneCursor(lib), RUN_QUERY) == Some("")
    ensures AdmittedLedger(OneCursor(lib), RUN_QUERY) == OneCursor(lib).ledger
    ensures OneCursor(lib).ledger.tx.autocommit
  {
  }

  /**
   * The condition is needed: a result opened in autocommit is read to its end, and the
   * same result, from the same reply, is lost if autocommit is switched off in between.
   */
  lemma SwitchedResultCannotBeRead(lib: Library)
    ensures var w := Step(OneCursor(lib), RUN_QUERY).world;
            var switched := Step(w, SWITCH_OFF);
            && Step(OneCursor(lib), RUN_QUERY).answer == Success([])
            && Step(w, Call.Fetch(0, FetchAll)).answer == Success([])
            && switched.answer == Success([])
            && Step(switched.world, Call.Fetch(0, FetchAll)).answer == Failure(InternalError)
  {
    hide Conforms, Reader, Step, SentUnder, AdmittedLedger, BlockOk, EndOk, PlainTerms, RowsOfBatches, Enter,
         DecodeColumns, QueryFuture;
    var terms, w0 := PlainTerms(lib), OneCursor(lib);
    NoRowsReplyConforms(lib);
    QueryIsSent(lib);
    QueryIsOpened(w0, RUN_QUERY, NO_ROWS, AUTOCOMMITTED, NO_ROWS_REPLY);
    var w := Step(w0, RUN_QUERY).world;
    QueryIsRead(w, 0, Reader(terms), NO_ROWS, AUTOCOMMITTED, "");
    SwitchingOff(w);
    FetchingFirst(w);
    var switched := Step(w, SWITCH_OFF).world;
    FetchingFirst(switched);
    QueryIsRead(switched, 0, Reader(terms), NO_ROWS, AUTOCOMMITTED, "");
    NoBatchesNoRows(Reader(terms));
  }

  lemma SwitchingOff(w: World)
    requires !w.closed && w.ledger.tx.autocommit
    ensures Step(w, SWITCH_OFF).answer == Success([])
    ensures var w' := Step(w, SWITCH_OFF).world;
            !w'.closed && w'.desks == w.desks && !w'.ledger.tx.autocommit
  {
    hide ExecuteStep, ExecuteManyStep, FetchStep, CommitStep;
  }

  lemma FetchingFirst(w: World)
    requires w.desks != []
    ensures Step(w, Call.Fetch(0, FetchAll)) == FetchStep(w, 0, FetchAll)
  {
    hide ExecuteStep, ExecuteManyStep, FetchStep;
  }

  lemma NoBatchesNoRows(cfg: Config)
    requires BlockOk(cfg, NO_ROWS)
    ensures RowsOfBatches(cfg, DecodeColumns(cfg, []), []) == []
  {
  }
}
