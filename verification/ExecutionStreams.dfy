/** The validating reader of an Execute call. */
module ExecutionStreams {
  import opened Wrappers
  import opened Errors
  import opened Protocol
  import opened Grammar
  import opened Transcripts

  /** What one call of `__next__` does: hand out an event, stop iterating, or raise. */
  datatype Step = Yield(event: Event) | Stop | Raise(error: Error)

  /** The reader's counters agree with a parse of the responses accepted so far. */
  ghost predicate Counts(
    cfg: Config, p: Parse, nextResultId: int, activeResultId: Option<int>, activeColumns: seq<Column>,
    activeRows: int, primaryResults: int, updateResults: set<int>, queryResults: set<int>)
    requires ParseOk(cfg, p)
  {
    && nextResultId == |Seen(p)| + 1
    && activeResultId == (if p.open.Some? then Some(|p.done| + 1) else None)
    && (p.open.Some? ==> activeColumns == DecodeColumns(cfg, p.open.value.columns)
                         && activeRows == RowCount(p.open.value.batches))
    && primaryResults == Primaries(Seen(p))
    && NumbersOf(Seen(p), updateResults, IsUpdate)
    && NumbersOf(Seen(p), queryResults, IsQuery)
  }

  /** `ids` are the numbers, from 1 on, of the blocks that satisfy `kind`. */
  ghost predicate NumbersOf(blocks: seq<Block>, ids: set<int>, kind: Block -> bool) {
    forall id :: id in ids <==> 1 <= id <= |blocks| && kind(blocks[id - 1])
  }

  lemma NumbersSnoc(blocks: seq<Block>, b: Block, ids: set<int>, kind: Block -> bool)
    requires NumbersOf(blocks, ids, kind)
    ensures NumbersOf(blocks + [b], if kind(b) then ids + {|blocks| + 1} else ids, kind)
  {
  }

  lemma PrimariesSnoc(blocks: seq<Block>, b: Block)
    ensures Primaries(blocks + [b]) == Primaries(blocks) + if IsKeys(b) then 0 else 1
  {
    assert (blocks + [b])[..|blocks|] == blocks;
  }

  lemma QueriedNumbers(blocks: seq<Block>, ids: set<int>)
    requires NumbersOf(blocks, ids, IsQuery)
    ensures Queried(blocks) <==> ids != {}
  {
    if b :| b in blocks && IsQuery(b) {
      var i :| 0 <= i < |blocks| && blocks[i] == b;
      assert i + 1 in ids;
    }
    forall id | id in ids ensures Queried(blocks) {
      assert blocks[id - 1] in blocks;
    }
  }

  class ExecutionStream {
    const cfg: Config
    const ending: Ending
    var unread: seq<Response>
    var cancelled: bool
    var nextResultId: int
    var activeResultId: Option<int>
    var activeColumns: seq<Column>
    var activeRows: int
    var primaryResults: int
    var updateResults: set<int>
    var queryResults: set<int>
    var complete: bool
    var closed: bool
    var transaction: Option<Status>
    ghost var parse: Parse

    ghost predicate Counted()
      requires ParseOk(cfg, parse)
      reads this
    {
      Counts(cfg, parse, nextResultId, activeResultId, activeColumns, activeRows,
             primaryResults, updateResults, queryResults)
    }

    predicate Live()
      reads this
    {
      !complete && !closed
    }

    /** What holds even while a rejected response has left the counters behind. */
    ghost predicate Sound()
      reads this
    {
      && ParseOk(cfg, parse)
      && (complete <==> transaction.Some?)
      && (cancelled <==> closed && !complete)
    }

    ghost predicate Valid()
      reads this
    {
      Sound() && (Live() ==> Counted())
    }

    /** All that a live reader will still deliver, and what comes after it. */
    ghost function Ahead(): Transcript
      requires Valid() && Live()
      reads this
    {
      Read(cfg, parse, unread, ending)
    }

    /** The handler did what the grammar says of this response. */
    twostate predicate Handled(response: Response, new r: Result<Event, Error>)
      requires old(ParseOk(cfg, parse))
      reads this
    {
      match old(Advance(cfg, parse, response))
      case Refused => r == Failure(ProtocolError) && parse == old(parse)
      case Delivered(p, e) => r == Success(e) && parse == p && ParseOk(cfg, parse) && Counted()
      case Final(_) => false
    }

    constructor (cfg: Config, responses: seq<Response>, ending: Ending)
      ensures Valid() && Live() && !cancelled
      ensures this.cfg == cfg && this.ending == ending
      ensures ParseOk(cfg, EMPTY) && Ahead() == Read(cfg, EMPTY, responses, ending)
    {
      this.cfg := cfg;
      this.ending := ending;
      unread := responses;
      cancelled := false;
      nextResultId := 1;
      activeResultId := None;
      activeColumns := [];
      activeRows := 0;
      primaryResults := 0;
      updateResults := {};
      queryResults := {};
      complete := false;
      closed := false;
      transaction := None;
      parse := EMPTY;
      new;
      EmptyParse(cfg);
    }

    method Close()
      requires Sound()
      modifies this
      ensures Valid() && closed
      ensures complete == old(complete) && transaction == old(transaction) && unread == old(unread)
      ensures cancelled <==> !complete
      ensures old(closed) ==> cancelled == old(cancelled)
    {
      if closed {
        return;
      }
      closed := true;
      if !complete {
        cancelled := true;
      }
    }

    /** Delivers the first event still ahead, or raises what stands where it would be. */
    method Next() returns (r: Step)
      requires Valid()
      modifies this
      ensures Valid()
      ensures !old(Live()) ==> r == Stop && unchanged(this)
      ensures old(Live()) && old(Ahead()).events == [] ==>
                && r.Raise?
                && old(Ahead()).verdict == Failed(r.error)
                && !complete
                && (r.error == ProtocolError ==> closed && cancelled)
                && (r.error != ProtocolError ==> Live() && Ahead() == old(Ahead()))
      ensures old(Live()) && old(Ahead()).events != [] ==>
                && r == Yield(old(Ahead()).events[0])
                && !closed
                && (r.event.Ended? ==> complete && transaction == Some(r.event.outcome.status))
                && (!r.event.Ended? ==>
                      Live() && Ahead() == Transcript(old(Ahead()).events[1..], old(Ahead()).verdict))
    {
      hide Sentence, Advance, Counts, InLimits;
      if complete || closed {
        return Stop;
      }
      var response := NextResponse();
      var event: Result<Event, Error>;
      if response.Failure? {
        event := Failure(response.error);
        assert old(unread) != [] ==> Advance(cfg, parse, old(unread)[0]).Refused? by {
          if old(unread) != [] && !Advance(cfg, parse, old(unread)[0]).Refused? {
            DeliveredInLimits(cfg, parse, old(unread)[0]);
          }
        }
      } else {
        DeliveredIsNoEnd(cfg, parse, response.value);
        event := Dispatch(response.value);
      }
      if event.Failure? {
        if event.error == ProtocolError {
          Close();
        }
        return Raise(event.error);
      }
      r := Yield(event.value);
    }

    /** Hands the response to the handler of its kind. */
    method Dispatch(response: Response) returns (r: Result<Event, Error>)
      requires Valid() && Live() && InLimits(cfg, response)
      modifies `nextResultId, `activeResultId, `activeColumns, `activeRows, `primaryResults, `updateResults,
               `queryResults, `parse, `unread, `complete, `transaction
      ensures Sound()
      ensures match old(Advance(cfg, parse, response))
              case Refused =>
                r == Failure(ProtocolError) && !complete
              case Delivered(p, e) =>
                r == Success(e) && parse == p && Valid() && Live() && unread == old(unread)
              case Final(outcome) =>
                if old(unread) == [] && ending.Clean? then
                  r == Success(Ended(outcome)) && complete && transaction == Some(outcome.status)
                else
                  && r == Failure(if old(unread) == [] then EndingError(ending) else ProtocolError)
                  && Valid() && Live() && parse == old(parse) && (old(unread) == [] ==> unread == [])
    {
      hide Sentence, Counts, InLimits, PrimaryAllowed, ColumnsOk, CountsOk, BatchOk, EndOk, OutcomeOf;
      match response.event
      case StartEvent(_, _, _, _) => r := StartResultSet(response);
      case RowsEvent(_, _) => r := AddRows(response);
      case UpdateEvent(_, _) => r := Update(response);
      case SetEndEvent(_, _) => r := EndResultSet(response);
      case EndEvent(_) => r := FinishExecution(response);
      case NoEvent => r := Failure(ProtocolError);
    }

    /** Takes the next response off the call and checks it against the limits. */
    method NextResponse() returns (r: Result<Response, Error>)
      requires Valid() && Live()
      modifies this`unread
      ensures r.Success? ==>
                && old(unread) != [] && r.value == old(unread)[0] && unread == old(unread)[1..]
                && InLimits(cfg, r.value)
      ensures r.Failure? && old(unread) == [] ==> r.error == EndingError(ending) && unread == []
      ensures r.Failure? && old(unread) != [] ==> r.error == ProtocolError && !InLimits(cfg, old(unread)[0])
    {
      if unread == [] {
        return Failure(EndingError(ending));
      }
      var response := unread[0];
      unread := unread[1..];
      if response.bytes > cfg.maxResponseBytes {
        return Failure(ProtocolError);
      }
      if response.event.RowsEvent? {
        if |response.event.rows| > cfg.maxRowsPerBatch {
          return Failure(ProtocolError);
        }
        if response.batchBytes > cfg.maxBatchBytes {
          return Failure(ProtocolError);
        }
      }
      r := Success(response);
    }

    method ClaimResultId(resultId: int) returns (r: Result<(), Error>)
      modifies this`nextResultId
      ensures r == if resultId == old(nextResultId) then Success(()) else Failure(ProtocolError)
      ensures nextResultId == if r.Success? then old(nextResultId) + 1 else old(nextResultId)
    {
      if resultId != nextResultId {
        return Failure(ProtocolError);
      }
      nextResultId := nextResultId + 1;
      r := Success(());
    }

    method ClaimPrimaryResult() returns (r: Result<(), Error>)
      modifies this`primaryResults
      ensures primaryResults == old(primaryResults) + 1
      ensures r == if primaryResults > 1 && MULTIPLE_RESULTS !in cfg.accepted then Failure(ProtocolError)
                   else Success(())
    {
      primaryResults := primaryResults + 1;
      if primaryResults > 1 && MULTIPLE_RESULTS !in cfg.accepted {
        return Failure(ProtocolError);
      }
      r := Success(());
    }

    method ReadColumns(wire: seq<WireColumn>) returns (r: Result<seq<Column>, Error>)
      ensures r == if ColumnsOk(cfg, wire) then Success(DecodeColumns(cfg, wire)) else Failure(ProtocolError)
    {
      var columns: seq<Column> := [];
      for i := 0 to |wire|
        invariant |columns| == i
        invariant forall j :: 0 <= j < i ==> DecodeColumn(cfg, wire[j]) == Success(columns[j])
      {
        var column := DecodeColumn(cfg, wire[i]);
        if column.Failure? {
          assert wire[i] in wire;
          return Failure(ProtocolError);
        }
        columns := columns + [column.value];
      }
      assert columns == DecodeColumns(cfg, wire);
      r := Success(columns);
    }

    /** Generated keys were accepted, and follow the update just reported. */
    function AdmitKeys(resultId: int, parent: Option<int>): Result<(), Error>
      reads this
    {
      if GENERATED_KEYS in cfg.accepted && parent == Some(resultId - 1) && parent.value in updateResults
      then Success(())
      else Failure(ProtocolError)
    }

    /** A query has no parent and takes a primary slot. */
    method ClaimQuery(resultId: int, parent: Option<int>) returns (r: Result<(), Error>)
      modifies `primaryResults, `queryResults
      ensures r == if parent.Some? || (old(primaryResults) > 0 && MULTIPLE_RESULTS !in cfg.accepted)
                   then Failure(ProtocolError) else Success(())
      ensures r.Success? ==>
                primaryResults == old(primaryResults) + 1 && queryResults == old(queryResults) + {resultId}
    {
      if parent.Some? {
        return Failure(ProtocolError);
      }
      r := ClaimPrimaryResult();
      if r.Success? {
        queryResults := queryResults + {resultId};
      }
    }

    /** The set is open, and its rows are counted from zero. */
    method OpenSet(resultId: int, columns: seq<Column>, ghost b: Block)
      requires b.SetBlock? && b.batches == [] && ParseOk(cfg, Parse(parse.done, Some(b)))
      requires resultId == |parse.done| + 1 && nextResultId == resultId + 1
      requires ColumnsOk(cfg, b.columns) && columns == DecodeColumns(cfg, b.columns)
      requires primaryResults == Primaries(parse.done + [b])
      requires NumbersOf(parse.done + [b], updateResults, IsUpdate)
      requires NumbersOf(parse.done + [b], queryResults, IsQuery)
      modifies `activeResultId, `activeColumns, `activeRows, `parse
      ensures parse == Parse(old(parse).done, Some(b)) && Counted()
    {
      hide Sentence, Primaries, BatchOk, DecodeColumns, ColumnsOk, BlockOk, NumbersOf;
      activeResultId := Some(resultId);
      activeColumns := columns;
      activeRows := 0;
      parse := Parse(parse.done, Some(b));
    }

    method StartResultSet(response: Response) returns (r: Result<Event, Error>)
      requires Valid() && Live() && response.event.StartEvent? && InLimits(cfg, response)
      modifies `nextResultId, `activeResultId, `activeColumns, `activeRows, `primaryResults, `queryResults, `parse
      ensures Handled(response, r)
    {
      hide Sentence, Primaries, EndOk, BatchOk, DecodeColumns, ColumnsOk, InLimits, BlockOk, NumbersOf;
      var StartEvent(resultId, role, parent, wireColumns) := response.event;
      if activeResultId.Some? {
        return Failure(ProtocolError);
      }
      assert Seen(parse) == parse.done;
      var claim := ClaimResultId(resultId);
      if claim.Failure? {
        return Failure(claim.error);
      }
      if role.OtherRole? {
        return Failure(ProtocolError);
      }
      NumbersMember(parse.done, updateResults, IsUpdate, resultId - 1);
      var admitted := if role == GeneratedKeys then AdmitKeys(resultId, parent) else Success(());
      if role == Query {
        admitted := ClaimQuery(resultId, parent);
      }
      if admitted.Failure? {
        return Failure(admitted.error);
      }
      var columns := ReadColumns(wireColumns);
      if columns.Failure? {
        return Failure(columns.error);
      }
      ghost var b := SetBlock(role, wireColumns, []);
      NumbersSnoc(parse.done, b, updateResults, IsUpdate);
      NumbersSnoc(parse.done, b, old(queryResults), IsQuery);
      PrimariesSnoc(parse.done, b);
      AdvanceKeepsParse(cfg, parse, response);
      OpenSet(resultId, columns.value, b);
      r := Success(Started(resultId, columns.value, role, parent));
    }

    method AddRows(response: Response) returns (r: Result<Event, Error>)
      requires Valid() && Live() && response.event.RowsEvent? && InLimits(cfg, response)
      modifies `activeRows, `parse
      ensures Handled(response, r)
    {
      hide Sentence, Primaries, EndOk, DecodeRow, ColumnsOk, InLimits, BlockOk, NumbersOf;
      var RowsEvent(resultId, batch) := response.event;
      if activeResultId != Some(resultId) {
        return Failure(ProtocolError);
      }
      var rows := ReadRows(batch);
      if rows.Failure? {
        return Failure(rows.error);
      }
      activeRows := activeRows + |rows.value|;
      ghost var b := parse.open.value;
      ghost var b' := b.(batches := b.batches + [batch]);
      AdvanceKeepsParse(cfg, parse, response);
      SameKindNumbers(parse.done, b, b', updateResults, IsUpdate);
      SameKindNumbers(parse.done, b, b', queryResults, IsQuery);
      PrimariesSnoc(parse.done, b);
      PrimariesSnoc(parse.done, b');
      assert b'.batches[..|b'.batches| - 1] == b.batches;
      parse := Parse(parse.done, Some(b'));
      r := Success(Rows(resultId, rows.value));
    }

    method ReadRows(batch: seq<WireRow>) returns (r: Result<seq<Row>, Error>)
      ensures r == if BatchOk(cfg, activeColumns, batch) then Success(DecodeBatch(cfg, activeColumns, batch))
                   else Failure(ProtocolError)
    {
      hide DecodeRow;
      var rows: seq<Row> := [];
      for i := 0 to |batch|
        invariant |rows| == i
        invariant forall j :: 0 <= j < i ==> DecodeRow(cfg, activeColumns, batch[j]) == Some(rows[j])
      {
        var row := DecodeRow(cfg, activeColumns, batch[i]);
        if row.None? {
          assert batch[i] in batch;
          return Failure(ProtocolError);
        }
        rows := rows + [row.value];
      }
      assert rows == DecodeBatch(cfg, activeColumns, batch);
      r := Success(rows);
    }

    method Update(response: Response) returns (r: Result<Event, Error>)
      requires Valid() && Live() && response.event.UpdateEvent? && InLimits(cfg, response)
      modifies `nextResultId, `primaryResults, `updateResults, `parse
      ensures Handled(response, r)
    {
      hide Sentence, Primaries, EndOk, InLimits, BlockOk, NumbersOf;
      var UpdateEvent(resultId, wireCounts) := response.event;
      if activeResultId.Some? {
        return Failure(ProtocolError);
      }
      assert Seen(parse) == parse.done;
      var claim := ClaimResultId(resultId);
      if claim.Failure? {
        return Failure(claim.error);
      }
      var primary := ClaimPrimaryResult();
      if primary.Failure? {
        return Failure(primary.error);
      }
      if wireCounts == [] {
        return Failure(ProtocolError);
      }
      var counts: seq<Option<nat>> := [];
      for i := 0 to |wireCounts|
        invariant |counts| == i && NoCount !in wireCounts[..i]
        invariant counts == DecodeCounts(wireCounts[..i])
      {
        assert wireCounts[..i + 1] == wireCounts[..i] + [wireCounts[i]];
        match wireCounts[i]
        case Affected(rows) => counts := counts + [Some(rows)];
        case UnknownCount => counts := counts + [None];
        case NoCount => return Failure(ProtocolError);
      }
      assert wireCounts[..|wireCounts|] == wireCounts;
      updateResults := updateResults + {resultId};
      ghost var b := UpdateBlock(wireCounts);
      NumbersSnoc(parse.done, b, old(updateResults), IsUpdate);
      NumbersSnoc(parse.done, b, queryResults, IsQuery);
      PrimariesSnoc(parse.done, b);
      AdvanceKeepsParse(cfg, parse, response);
      parse := Parse(parse.done + [b], None);
      assert Seen(parse) == parse.done;
      r := Success(Updated(resultId, counts));
    }

    method EndResultSet(response: Response) returns (r: Result<Event, Error>)
      requires Valid() && Live() && response.event.SetEndEvent? && InLimits(cfg, response)
      modifies `activeResultId, `activeColumns, `activeRows, `parse
      ensures Handled(response, r)
    {
      hide Sentence, Primaries, EndOk, InLimits, BlockOk, NumbersOf;
      var SetEndEvent(resultId, rowCount) := response.event;
      if activeResultId != Some(resultId) {
        return Failure(ProtocolError);
      }
      if rowCount != activeRows {
        return Failure(ProtocolError);
      }
      activeResultId := None;
      activeColumns := [];
      activeRows := 0;
      AdvanceKeepsParse(cfg, parse, response);
      assert Seen(Parse(parse.done + [parse.open.value], None)) == Seen(parse);
      parse := Parse(parse.done + [parse.open.value], None);
      r := Success(SetEnded(resultId, rowCount));
    }

    /** The terminal event is a success only when the call then ends cleanly. */
    method FinishExecution(response: Response) returns (r: Result<Event, Error>)
      requires Valid() && Live() && response.event.EndEvent? && InLimits(cfg, response)
      modifies `unread, `complete, `transaction
      ensures match Advance(cfg, parse, response)
              case Final(outcome) =>
                if old(unread) == [] && ending.Clean? then
                  r == Success(Ended(outcome)) && complete && transaction == Some(outcome.status)
                else
                  && !complete && unread == (if old(unread) == [] then [] else old(unread)[1..])
                  && transaction == old(transaction)
                  && r == Failure(if old(unread) == [] then EndingError(ending) else ProtocolError)
              case _ => r == Failure(ProtocolError) && unchanged(this)
    {
      hide Sentence, Primaries, InLimits, BlockOk, DecodeOutcome, Queried, DecodeStatus;
      var end := response.event.end;
      if activeResultId.Some? {
        return Failure(ProtocolError);
      }
      assert Seen(parse) == parse.done;
      if end.resultCount != nextResultId - 1 {
        return Failure(ProtocolError);
      }
      if end.transaction.None? {
        return Failure(ProtocolError);
      }
      var status := DecodeStatus(end.transaction.value);
      if status.Failure? {
        return Failure(ProtocolError);
      }
      QueriedNumbers(parse.done, queryResults);
      var outcome := DecodeOutcome(cfg, end, queryResults != {});
      if outcome.Failure? {
        return Failure(ProtocolError);
      }
      if unread != [] {
        unread := unread[1..];
        return Failure(ProtocolError);
      }
      match ending
      case Clean =>
        complete := true;
        transaction := Some(status.value);
        DecodedStatusIsWire(end.transaction.value);
        r := Success(Ended(Outcome(end.resultCount, status.value, outcome.value.0, outcome.value.1, outcome.value.2)));
      case Broken(details) =>
        r := Failure(RpcError(details));
    }
  }

  lemma DeliveredIsNoEnd(cfg: Config, p: Parse, r: Response)
    requires ParseOk(cfg, p)
    ensures Advance(cfg, p, r).Delivered? ==> !Advance(cfg, p, r).event.Ended?
  {
    hide Sentence, InLimits, PrimaryAllowed, ColumnsOk, CountsOk, BatchOk, EndOk, OutcomeOf;
  }

  lemma DecodedStatusIsWire(wire: Status)
    ensures DecodeStatus(wire).Success? ==> DecodeStatus(wire).value == wire
  {
  }

  lemma NumbersMember(blocks: seq<Block>, ids: set<int>, kind: Block -> bool, id: int)
    requires NumbersOf(blocks, ids, kind)
    ensures id in ids <==> 1 <= id <= |blocks| && kind(blocks[id - 1])
  {
  }

  lemma SameKindNumbers(blocks: seq<Block>, b: Block, b': Block, ids: set<int>, kind: Block -> bool)
    requires NumbersOf(blocks + [b], ids, kind) && kind(b) == kind(b')
    ensures NumbersOf(blocks + [b'], ids, kind)
  {
  }
}
