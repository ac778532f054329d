/** What the rows a caller gets hold: the decoded cells of the server's rows, each in its place. */
module CellTheorems {
  import opened Wrappers
  import opened Errors
  import opened LocalTimes
  import opened Codec
  import opened Protocol
  import opened Grammar
  import opened Transcripts
  import opened Transactions
  import opened Requests
  import opened Fetching
  import opened CursorStreams
  import opened Executions
  import opened ExecutionTheorems
  import opened Worlds
  import opened WorldTheorems
  import opened OperationTheorems
  import opened DeliveryTheorems
  import RowTheorems

  /** A cell is the decoded value, or the naive Python value of the same local time and day. */
  predicate SameCell(cell: Value, decoded: Value) {
    || cell == decoded
    || (&& decoded.LocalTime? && IsLocalTime(decoded.text)
        && cell.TimeOnly? && !cell.aware && ValidTime(cell.time)
        && InstantOfTime(cell.time) == InstantOfClock(ParseLocalTime(decoded.text).value))
    || (&& decoded.LocalTimestamp? && IsLocalTimestamp(decoded.text)
        && var (day, clock) := ParseLocalTimestamp(decoded.text).value;
           && cell.Datetime? && !cell.aware && ValidTime(cell.time) && cell.date == day
           && InstantOfTime(cell.time) == InstantOfClock(ParseLocalTime(clock).value))
  }

  lemma AdaptedCell(decoded: Value)
    ensures SameCell(AdaptValue(decoded), decoded)
  {
    hide ParseLocalTime, Nanoseconds;
    match decoded
    case LocalTime(text) =>
      if IsLocalTime(text) {
        AdaptationIsLossless(text);
      }
    case LocalTimestamp(text) =>
      if IsLocalTimestamp(text) {
        RowTheorems.TimestampAdaptationIsLossless(text);
      }
    case _ =>
  }

  /** A row holds, column by column, the decoded cells of a wire row. */
  ghost predicate Holds(cfg: Config, row: Row, wire: WireRow, columns: seq<Column>) {
    && |row| == |wire| == |columns|
    && forall c :: 0 <= c < |row| ==>
         && Decode(cfg.lib, wire[c], columns[c].declared).Success?
         && SameCell(row[c], Decode(cfg.lib, wire[c], columns[c].declared).value)
  }

  lemma DecodedRowHolds(cfg: Config, columns: seq<Column>, wire: WireRow)
    requires DecodeRow(cfg, columns, wire).Some?
    ensures Holds(cfg, AdaptRow(DecodeRow(cfg, columns, wire).value), wire, columns)
  {
    hide Decode, DecodeRow, SameCell, AdaptValue;
    RowTheorems.RowAcceptance(cfg, columns, wire);
    var decoded := DecodeRow(cfg, columns, wire).value;
    forall c | 0 <= c < |decoded| ensures SameCell(AdaptRow(decoded)[c], decoded[c]) {
      AdaptedCell(decoded[c]);
    }
  }

  // ---- a conforming query ----

  /** The rows of all batches, one after the other. */
  function Flat(batches: seq<seq<WireRow>>): seq<WireRow> {
    if batches == [] then [] else batches[0] + Flat(batches[1..])
  }

  lemma {:induction false} BatchedRowHolds(cfg: Config, columns: seq<Column>, batches: seq<seq<WireRow>>, r: nat)
    requires forall batch | batch in batches :: BatchOk(cfg, columns, batch)
    requires r < |Flat(batches)|
    ensures |RowsOfBatches(cfg, columns, batches)| == |Flat(batches)|
    ensures Holds(cfg, RowsOfBatches(cfg, columns, batches)[r], Flat(batches)[r], columns)
    decreases |batches|
  {
    hide DecodeRow, AdaptRow, Holds;
    assert batches[0] in batches;
    FlatIsCounted(batches[1..]);
    RowsAreCounted(cfg, columns, batches[1..]);
    if r < |batches[0]| {
      assert batches[0][r] in batches[0];
      DecodedRowHolds(cfg, columns, batches[0][r]);
    } else {
      BatchedRowHolds(cfg, columns, batches[1..], r - |batches[0]|);
    }
  }

  lemma {:induction false} FlatIsCounted(batches: seq<seq<WireRow>>)
    ensures |Flat(batches)| == RowCount(batches)
  {
    if batches != [] {
      FlatIsCounted(batches[1..]);
      CountFromTheFront(batches);
    }
  }

  lemma ReadyIsSent(w: World, call: Call, id: string, l: Ledger)
    requires SoundCall(w.terms, call) && Tried(w, call) && Ready(w, call, id, l) && !Busy(w, call.cursor)
    requires Sendable(w, call, id)
    ensures SentUnder(w, call) == Some(id) && AdmittedLedger(w, call) == l
  {
    hide AdmitUnder, Dropped, Ready, Sendable, Refusal;
    ReadyMeansAdmitted(w, call, id, l);
    SendableIsSent(w, call, id);
  }

  /**
   * When an execution goes out and is answered by a conforming query, and all rows are
   * fetched next, the answer has one row per row of the batches, in order, and cell (r, c)
   * is what wire cell (r, c) decodes to under column c; the columns are the server's, by
   * name and type, and the row count and the report are those of this stream. If the end
   * does not have the status the mode and the transaction call for, no row is returned.
   */
  lemma ConformingQueryCells(
    w: World, call: Call, id: string, l: Ledger, b: Block, end: EndMessage, rs: seq<Response>)
    requires SoundCall(w.terms, call) && Tried(w, call) && Ready(w, call, id, l) && !Busy(w, call.cursor)
    requires Sendable(w, call, id) && call.reply.call == CallAccepted(rs, Clean)
    requires Conforms(Reader(w.terms), [b], end, rs) && IsQuery(b)
    ensures end.transaction.Some?
    ensures var sent := Step(w, call);
            var read := Step(sent.world, Call.Fetch(call.cursor, FetchAll));
            var columns, wire := sent.world.desks[call.cursor].columns, Flat(b.batches);
            && sent.answer == Success([])
            && |columns| == |b.columns|
            && (forall c :: 0 <= c < |columns| ==>
                  && b.columns[c].declared.Some?
                  && columns[c] == Column(b.columns[c].name, b.columns[c].declared.value))
            && if StatusAccepted(l.tx, end.transaction.value, id) then
                 && read.answer.Success? && |read.answer.value| == |wire|
                 && (forall r :: 0 <= r < |wire| ==> Holds(Reader(w.terms), read.answer.value[r], wire[r], columns))
                 && read.world.desks[call.cursor].rowcount == |wire|
                 && read.world.desks[call.cursor].report
                    == Report(Some(end.completeness), end.warnings, end.omitted)
               else
                 read.answer == Failure(InternalError)
  {
    hide Conforms, Reader, Step, StatusAccepted, SentUnder, AdmittedLedger, RowsOfBatches, DecodeColumns,
         Holds, Flat, Ready, Sendable, Tried, Busy, EndOk, BlockOk, OutcomeOf;
    ReadyIsSent(w, call, id, l);
    ConformingQueryReachesTheCaller(w, call, b, end, rs);
    QueryIsOpened(w, call, b, end, rs);
    ReportedAsSent(Reader(w.terms), b, end);
    var cfg := Reader(w.terms);
    QueryBatches(cfg, b);
    var columns := DecodeColumns(cfg, b.columns);
    FlatIsCounted(b.batches);
    DecodedColumns(cfg, b.columns);
    forall r | 0 <= r < |Flat(b.batches)|
      ensures Holds(cfg, RowsOfBatches(cfg, columns, b.batches)[r], Flat(b.batches)[r], columns)
    {
      BatchedRowHolds(cfg, columns, b.batches, r);
    }
  }

  lemma ReportedAsSent(cfg: Config, b: Block, end: EndMessage)
    requires EndOk(cfg, [b], end)
    ensures end.transaction.Some?
    ensures ReportOf(OutcomeOf(cfg, [b], end)) == Report(Some(end.completeness), end.warnings, end.omitted)
  {
    hide DecodeOutcome, DecodeStatus, Queried;
    RowTheorems.OutcomeAcceptance(cfg, end, Queried([b]));
  }

  lemma DecodedColumns(cfg: Config, wire: seq<WireColumn>)
    requires ColumnsOk(cfg, wire)
    ensures |DecodeColumns(cfg, wire)| == |wire|
    ensures forall c :: 0 <= c < |wire| ==>
              && wire[c].declared.Some?
              && DecodeColumns(cfg, wire)[c] == Column(wire[c].name, wire[c].declared.value)
  {
    forall c | 0 <= c < |wire|
      ensures wire[c].declared.Some? && DecodeColumns(cfg, wire)[c] == Column(wire[c].name, wire[c].declared.value)
    {
      assert wire[c] in wire;
      RowTheorems.ColumnAcceptance(cfg, wire[c]);
    }
  }

  // ---- whatever the server streams ----

  lemma {:induction false} NoRowsInEndTail(es: seq<Event>)
    requires EndTail(es)
    ensures RowsOf(es) == []
  {
    if es != [] {
      assert es[1..] == [];
    }
  }

  /** The rows delivered from an open result set on are the first wire rows to come, decoded. */
  ghost predicate RowsDecode(cfg: Config, columns: seq<Column>, rows: seq<Row>, wire: seq<WireRow>) {
    && |rows| <= |wire|
    && forall r :: 0 <= r < |rows| ==> DecodeRow(cfg, columns, wire[r]) == Some(rows[r])
  }

  lemma BatchDecodes(cfg: Config, p: Parse, r: Response)
    requires ParseOk(cfg, p) && p.open.Some?
    requires Advance(cfg, p, r).Delivered? && Advance(cfg, p, r).event.Rows?
    ensures r.event.RowsEvent? && Advance(cfg, p, r).parse.open.Some?
    ensures Advance(cfg, p, r).parse.open.value.columns == p.open.value.columns
    ensures var rows := Advance(cfg, p, r).event.rows;
            |rows| == |r.event.rows| && RowsDecode(cfg, DecodeColumns(cfg, p.open.value.columns), rows, r.event.rows)
  {
    hide Sentence, InLimits, ColumnsOk, CountsOk, EndOk, OutcomeOf, PrimaryAllowed, DecodeColumns, DecodeRow, RowCount;
  }

  lemma {:induction false} OpenSetDecodes(cfg: Config, p: Parse, rs: seq<Response>, ending: Ending)
    requires ParseOk(cfg, p) && SingleResult(cfg) && p.open.Some?
    ensures RowsDecode(cfg, DecodeColumns(cfg, p.open.value.columns), RowsOf(Read(cfg, p, rs, ending).events),
                       Joined(rs))
    decreases |rs|
  {
    hide Sentence, Advance, Primaries, ParseOk, Read, EndTail, WellEnded, DecodeColumns, DecodeRow;
    OpenRead(cfg, p, rs, ending);
    if rs != [] && Advance(cfg, p, rs[0]).Delivered? {
      var m := Advance(cfg, p, rs[0]);
      var rest := Read(cfg, m.parse, rs[1..], ending);
      assert ([m.event] + rest.events)[1..] == rest.events;
      if m.event.Rows? {
        BatchDecodes(cfg, p, rs[0]);
        OpenSetDecodes(cfg, m.parse, rs[1..], ending);
      } else {
        NoKeysOpen(cfg, p);
        LastPrimary(m.parse.done);
        SingleResultDone(cfg, m.parse, rs[1..], ending);
        NoRowsInEndTail(rest.events);
      }
    }
  }

  /** A stream delivers rows only after a start, and they are the first it sent, decoded under its columns. */
  lemma StreamDecodes(cfg: Config, rs: seq<Response>, ending: Ending)
    requires SingleResult(cfg)
    ensures var t := Whole(cfg, rs, ending);
            if t.events != [] && t.events[0].Started? then
              && rs != [] && rs[0].event.StartEvent? && ColumnsOk(cfg, rs[0].event.wireColumns)
              && t.events[0].columns == DecodeColumns(cfg, rs[0].event.wireColumns)
              && RowsDecode(cfg, t.events[0].columns, RowsOf(t.events), Joined(rs))
            else RowsOf(t.events) == []
  {
    hide Read, QueryTail, DecodeColumns, DecodeRow, ColumnsOk, WellEnded;
    SingleResultOpening(cfg, rs, ending);
    var t := Whole(cfg, rs, ending);
    if t.events != [] && t.events[0].Started? {
      StartedStreamDecodes(cfg, rs, ending);
    } else if t.events != [] && t.events[0].Updated? {
      NoRowsInEndTail(t.events[1..]);
    } else {
      NoRowsInEndTail(t.events);
    }
  }

  lemma StartedStreamDecodes(cfg: Config, rs: seq<Response>, ending: Ending)
    requires SingleResult(cfg)
    requires Whole(cfg, rs, ending).events != [] && Whole(cfg, rs, ending).events[0].Started?
    ensures var t := Whole(cfg, rs, ending);
            && rs != [] && rs[0].event.StartEvent? && ColumnsOk(cfg, rs[0].event.wireColumns)
            && t.events[0].columns == DecodeColumns(cfg, rs[0].event.wireColumns)
            && RowsDecode(cfg, t.events[0].columns, RowsOf(t.events), Joined(rs))
  {
    hide ParseOk, Advance, DecodeColumns, DecodeRow, ColumnsOk, RowsDecode;
    EmptyParse(cfg);
    StartDecodes(cfg, rs[0]);
    AdvanceKeepsParse(cfg, EMPTY, rs[0]);
    var t, p := Whole(cfg, rs, ending), Advance(cfg, EMPTY, rs[0]).parse;
    OpenSetDecodes(cfg, p, rs[1..], ending);
    var rest := Read(cfg, p, rs[1..], ending).events;
    assert t.events[1..] == rest;
    assert RowsOf(t.events) == RowsOf(rest);
    assert t.events[0] == Advance(cfg, EMPTY, rs[0]).event;
    assert Joined(rs) == Joined(rs[1..]);
  }

  lemma StartDecodes(cfg: Config, r: Response)
    requires ParseOk(cfg, EMPTY)
    requires Advance(cfg, EMPTY, r).Delivered? && Advance(cfg, EMPTY, r).event.Started?
    ensures r.event.StartEvent? && ColumnsOk(cfg, r.event.wireColumns)
    ensures Advance(cfg, EMPTY, r).event.columns == DecodeColumns(cfg, r.event.wireColumns)
    ensures var open := Advance(cfg, EMPTY, r).parse.open; open.Some? && open.value.columns == r.event.wireColumns
  {
    hide Sentence, InLimits, ColumnsOk, DecodeColumns, PrimaryAllowed;
  }

  // ---- in every program ----

  /** A result left open was started by the first response, and has its columns. */
  lemma OpenResultWasStarted(w: World, call: Call)
    requires SoundCall(w.terms, call) && Tried(w, call)
    requires Step(w, call).world.desks[call.cursor].shelf.Open?
    ensures call.reply.call.CallAccepted?
    ensures var t := Whole(Reader(w.terms), call.reply.call.responses, call.reply.call.ending);
            && t.events != [] && t.events[0].Started?
            && Step(w, call).world.desks[call.cursor].columns == t.events[0].columns
  {
    hide AdmitUnder, Refusal, Reader, AcceptedOutputFeatures, OpenExecution, Read, Enter, SlotTaken, Opening, Dropped;
    SingleReader(w.terms);
    if call.reply.call.CallAccepted? {
      var cfg, rs, ending := Reader(w.terms), call.reply.call.responses, call.reply.call.ending;
      SingleResultOpening(cfg, rs, ending);
      forall id, count, l | OpenExecution(Whole(cfg, rs, ending), id, count, l).state.shelf.Open?
        ensures StartedWith(Whole(cfg, rs, ending), OpenExecution(Whole(cfg, rs, ending), id, count, l).columns)
      {
        OpenedByItsStart(Whole(cfg, rs, ending), id, count, l);
      }
    }
  }

  predicate StartedWith(t: Transcript, columns: seq<Column>) {
    t.events != [] && t.events[0].Started? && columns == t.events[0].columns
  }

  lemma OpenedByItsStart(t: Transcript, id: string, count: int, l: Ledger)
    requires Opening(t.events) && OpenExecution(t, id, count, l).state.shelf.Open?
    ensures StartedWith(t, OpenExecution(t, id, count, l).columns)
  {
    hide Enter, ObserveEnd, FutureOf, UpdateRowcount, QueryTail;
    if t.events != [] && t.events[0].Updated? {
      EndTailOpensNothing(Transcript(t.events[1..], t.verdict), id, UpdateRowcount(t.events[0].counts), l);
    }
  }

  lemma EndTailOpensNothing(t: Transcript, id: string, count: int, l: Ledger)
    requires EndTail(t.events)
    ensures !OpenExecution(t, id, count, l).state.shelf.Open?
  {
    hide Enter, ObserveEnd, FutureOf;
  }

  /**
   * In every program, whatever the server streams: row r handed out for an execution holds
   * the cells of row r of the batches in its reply, under the columns of the reply's start,
   * which are also the cursor's.
   */
  lemma HandedRowsHoldTheServersCells(
    terms: Terms, autocommit: bool, before: seq<Call>, execution: Call, after: seq<Call>, r: nat)
    requires SoundProgram(terms, before) && SoundCall(terms, execution) && SoundProgram(terms, after)
    requires Tried(Play(Initial(terms, autocommit), before).world, execution)
    requires Untouched(after, execution.cursor)
    requires var w := Step(Play(Initial(terms, autocommit), before).world, execution).world;
             r < |HandedTo(execution.cursor, after, Play(w, after).answers)|
    ensures execution.reply.call.CallAccepted?
    ensures var w := Step(Play(Initial(terms, autocommit), before).world, execution).world;
            var handed := HandedTo(execution.cursor, after, Play(w, after).answers);
            var columns, rs := w.desks[execution.cursor].columns, execution.reply.call.responses;
            && rs != [] && rs[0].event.StartEvent?
            && var wire := rs[0].event.wireColumns;
               && |columns| == |wire|
               && (forall c :: 0 <= c < |columns| ==>
                     wire[c].declared.Some? && columns[c] == Column(wire[c].name, wire[c].declared.value))
               && r < |Joined(rs)| && Holds(Reader(terms), handed[r], Joined(rs)[r], columns)
  {
    hide Play, Step, Untouched, HandedTo, Reader, Read, DecodeColumns, DecodeRow, Holds, WorldOk, SoundProgram,
         ColumnsOk, AdaptRow, Joined;
    RowsBelongToTheirExecution(terms, autocommit, before, execution, after);
    EveryProgramIsSound(terms, autocommit, before);
    var w0 := Play(Initial(terms, autocommit), before).world;
    AttemptOpens(w0, execution);
    var w, i := Step(w0, execution).world, execution.cursor;
    if !w.desks[i].shelf.Open? {
      SilentAfterNothing(w, i, after);
      assert false;
    } else {
      OpenResultWasStarted(w0, execution);
      var rs := execution.reply.call.responses;
      var t := Whole(Reader(terms), rs, execution.reply.call.ending);
      SingleReader(terms);
      StreamDecodes(Reader(terms), rs, execution.reply.call.ending);
      DecodedColumns(Reader(terms), rs[0].event.wireColumns);
      DecodedRowHolds(Reader(terms), w.desks[i].columns, Joined(rs)[r]);
    }
  }
}
