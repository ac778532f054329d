/**
 * An Execute stream judged response by response: what each one must say, given only what
 * the server sent before it. No list of blocks and no parse is involved.
 */
module PositionTheorems {
  import opened Wrappers
  import opened Errors
  import opened Descriptors
  import opened Codec
  import opened CodecTheorems
  import opened Protocol
  import opened Grammar
  import opened Transcripts
  import Fetching
  import RowTheorems
  import OperationTheorems

  // ---- what was sent before a response ----

  /** The results finished before response i. */
  function Finished(rs: seq<Response>, i: nat): nat
    requires i <= |rs|
  {
    if i == 0 then 0
    else Finished(rs, i - 1) + if rs[i - 1].event.UpdateEvent? || rs[i - 1].event.SetEndEvent? then 1 else 0
  }

  /** The updates and queries begun before response i. */
  function Begun(rs: seq<Response>, i: nat): nat
    requires i <= |rs|
  {
    if i == 0 then 0 else Begun(rs, i - 1) + if rs[i - 1].event.UpdateEvent? || StartsQuery(rs[i - 1]) then 1 else 0
  }

  predicate StartsQuery(r: Response) { r.event.StartEvent? && r.event.role == Query }

  /** Where the result set was started to which response i belongs, if one is open. */
  function OpenedAt(rs: seq<Response>, i: nat): (start: Option<nat>)
    requires i <= |rs|
    ensures start.Some? ==> start.value < i && rs[start.value].event.StartEvent?
  {
    if i == 0 then None
    else if rs[i - 1].event.StartEvent? then Some(i - 1)
    else if rs[i - 1].event.SetEndEvent? then None
    else OpenedAt(rs, i - 1)
  }

  /** The rows sent from response j on and before response i. */
  function RowsSince(rs: seq<Response>, j: nat, i: nat): nat
    requires i <= |rs|
  {
    if i <= j then 0
    else RowsSince(rs, j, i - 1) + if rs[i - 1].event.RowsEvent? then |rs[i - 1].event.rows| else 0
  }

  // ---- what a response must say ----

  ghost predicate ColumnFits(cfg: Config, c: WireColumn) {
    && c.declared.Some?
    && WellFormed(c.declared.value)
    && LevelsSupported(c.declared.value, cfg.outputTypes)
    && Depth(c.declared.value) <= cfg.maxDimensions
    && (Depth(c.declared.value) > 0 ==> ARRAY_VALUES in cfg.accepted)
  }

  /** One value per column, of the column's type, and nothing nested that was not accepted. */
  predicate RowFits(cfg: Config, columns: seq<WireColumn>, row: WireRow) {
    && |row| == |columns|
    && (forall c :: 0 <= c < |row| ==>
          columns[c].declared.Some? && Decode(cfg.lib, row[c], columns[c].declared.value).Success?)
    && forall n | n in NestedAll(row) :: RowTheorems.OutputFeature(n) <= cfg.accepted
  }

  /** Response i is what may come after those before it. */
  ghost predicate Fits(cfg: Config, rs: seq<Response>, i: nat)
    requires i < |rs|
  {
    var r, id, start := rs[i], Finished(rs, i) + 1, OpenedAt(rs, i);
    && r.bytes <= cfg.maxResponseBytes
    && match r.event
       case StartEvent(resultId, role, parent, columns) =>
         && start.None? && resultId == id
         && (forall c | c in columns :: ColumnFits(cfg, c))
         && (|| (role == Query && parent.None? && (Begun(rs, i) > 0 ==> MULTIPLE_RESULTS in cfg.accepted))
             || (&& role == GeneratedKeys && parent == Some(id - 1) && GENERATED_KEYS in cfg.accepted
                 && i > 0 && rs[i - 1].event.UpdateEvent?))
       case RowsEvent(resultId, rows) =>
         && start.Some? && resultId == id
         && |rows| <= cfg.maxRowsPerBatch && r.batchBytes <= cfg.maxBatchBytes
         && forall row | row in rows :: RowFits(cfg, rs[start.value].event.wireColumns, row)
       case UpdateEvent(resultId, counts) =>
         && start.None? && resultId == id
         && (Begun(rs, i) > 0 ==> MULTIPLE_RESULTS in cfg.accepted)
         && counts != [] && NoCount !in counts
       case SetEndEvent(resultId, rowCount) =>
         start.Some? && resultId == id && rowCount == RowsSince(rs, start.value, i)
       case EndEvent(end) =>
         && start.None? && end.resultCount == id - 1
         && end.transaction.Some? && !OperationTheorems.Contradictory(end.transaction.value)
         && RowTheorems.ReportAllowed(cfg, end, exists j :: 0 <= j < i && StartsQuery(rs[j]))
       case NoEvent => false
  }

  /** The event a reader is given for response i says what the response says. */
  predicate Shows(cfg: Config, rs: seq<Response>, i: nat, e: Event)
    requires i < |rs|
  {
    match rs[i].event
    case StartEvent(resultId, role, parent, columns) =>
      && e.Started? && e.resultId == resultId && e.role == role && e.parent == parent
      && |e.columns| == |columns|
      && forall c :: 0 <= c < |columns| ==>
           columns[c].declared.Some? && e.columns[c] == Column(columns[c].name, columns[c].declared.value)
    case RowsEvent(resultId, rows) =>
      && e.Rows? && e.resultId == resultId && |e.rows| == |rows|
      && OpenedAt(rs, i).Some?
      && var columns := rs[OpenedAt(rs, i).value].event.wireColumns;
         forall k :: 0 <= k < |rows| ==> ShowsRow(cfg, columns, rows[k], e.rows[k])
    case UpdateEvent(resultId, counts) =>
      && e.Updated? && e.resultId == resultId && |e.counts| == |counts|
      && forall k :: 0 <= k < |counts| ==>
           e.counts[k] == if counts[k].Affected? then Some(counts[k].rows) else None
    case SetEndEvent(resultId, rowCount) => e == SetEnded(resultId, rowCount)
    case EndEvent(end) =>
      && end.transaction.Some?
      && e == Ended(Outcome(end.resultCount, end.transaction.value, end.completeness, end.warnings, end.omitted))
    case NoEvent => false
  }

  predicate ShowsRow(cfg: Config, columns: seq<WireColumn>, wire: WireRow, row: Row) {
    && |row| == |wire| == |columns|
    && forall c :: 0 <= c < |row| ==>
         columns[c].declared.Some? && Decode(cfg.lib, wire[c], columns[c].declared.value) == Success(row[c])
  }

  // ---- a partial parse is what was sent ----

  /** The parse agrees with the responses before i. */
  ghost predicate Stands(p: Parse, rs: seq<Response>, i: nat)
    requires i <= |rs|
  {
    var start := OpenedAt(rs, i);
    && |p.done| == Finished(rs, i)
    && Primaries(Seen(p)) == Begun(rs, i)
    && (Queried(Seen(p)) <==> exists j :: 0 <= j < i && StartsQuery(rs[j]))
    && (p.open.Some? <==> start.Some?)
    && (p.open.Some? ==>
          && p.open.value.SetBlock?
          && p.open.value.columns == rs[start.value].event.wireColumns
          && RowCount(p.open.value.batches) == RowsSince(rs, start.value, i))
    && (p.open.None? ==>
          (p.done != [] && p.done[|p.done| - 1].UpdateBlock? <==> i > 0 && rs[i - 1].event.UpdateEvent?))
  }

  lemma PrimariesSnoc(blocks: seq<Block>, b: Block)
    ensures Primaries(blocks + [b]) == Primaries(blocks) + if IsKeys(b) then 0 else 1
    ensures Queried(blocks + [b]) <==> Queried(blocks) || IsQuery(b)
  {
    assert (blocks + [b])[..|blocks|] == blocks;
    assert b in blocks + [b];
    assert forall c | c in blocks :: c in blocks + [b];
  }

  // ---- the checks on columns and rows, response by response ----

  lemma ColumnsFit(cfg: Config, columns: seq<WireColumn>)
    ensures ColumnsOk(cfg, columns) <==> forall c | c in columns :: ColumnFits(cfg, c)
    ensures ColumnsOk(cfg, columns) ==>
              && |DecodeColumns(cfg, columns)| == |columns|
              && forall c :: 0 <= c < |columns| ==>
                   && columns[c].declared.Some?
                   && DecodeColumns(cfg, columns)[c] == Column(columns[c].name, columns[c].declared.value)
  {
    hide DecodeColumn, WellFormed, LevelsSupported, Depth;
    forall c | c in columns
      ensures DecodeColumn(cfg, c).Success? <==> ColumnFits(cfg, c)
      ensures DecodeColumn(cfg, c).Success? ==> DecodeColumn(cfg, c).value == Column(c.name, c.declared.value)
    {
      RowTheorems.ColumnAcceptance(cfg, c);
    }
    if ColumnsOk(cfg, columns) {
      forall c | 0 <= c < |columns|
        ensures columns[c].declared.Some?
        ensures DecodeColumns(cfg, columns)[c] == Column(columns[c].name, columns[c].declared.value)
      {
        assert columns[c] in columns;
      }
    }
  }

  lemma RowFit(cfg: Config, columns: seq<WireColumn>, row: WireRow)
    requires ColumnsOk(cfg, columns)
    ensures DecodeRow(cfg, DecodeColumns(cfg, columns), row).Some? <==> RowFits(cfg, columns, row)
    ensures DecodeRow(cfg, DecodeColumns(cfg, columns), row).Some? ==>
              ShowsRow(cfg, columns, row, DecodeRow(cfg, DecodeColumns(cfg, columns), row).value)
  {
    hide ColumnsOk, DecodeColumns, DecodeRow, Decode, NestedAll, RowTheorems.OutputFeature, ColumnFits;
    ColumnsFit(cfg, columns);
    RowTheorems.RowAcceptance(cfg, DecodeColumns(cfg, columns), row);
  }

  lemma BatchFits(cfg: Config, columns: seq<WireColumn>, batch: seq<WireRow>)
    requires ColumnsOk(cfg, columns)
    ensures BatchOk(cfg, DecodeColumns(cfg, columns), batch) <==>
            forall row | row in batch :: RowFits(cfg, columns, row)
    ensures BatchOk(cfg, DecodeColumns(cfg, columns), batch) ==>
              var rows := DecodeBatch(cfg, DecodeColumns(cfg, columns), batch);
              forall k :: 0 <= k < |batch| ==> ShowsRow(cfg, columns, batch[k], rows[k])
  {
    hide ColumnsOk, DecodeColumns, DecodeRow, RowFits, ShowsRow;
    forall row | row in batch
      ensures DecodeRow(cfg, DecodeColumns(cfg, columns), row).Some? <==> RowFits(cfg, columns, row)
      ensures DecodeRow(cfg, DecodeColumns(cfg, columns), row).Some? ==>
                ShowsRow(cfg, columns, row, DecodeRow(cfg, DecodeColumns(cfg, columns), row).value)
    {
      RowFit(cfg, columns, row);
    }
    if BatchOk(cfg, DecodeColumns(cfg, columns), batch) {
      forall k | 0 <= k < |batch|
        ensures ShowsRow(cfg, columns, batch[k], DecodeBatch(cfg, DecodeColumns(cfg, columns), batch)[k])
      {
        assert batch[k] in batch;
      }
    }
  }

  // ---- one response ----

  /** What the stream does with response i, and what is known afterwards. */
  ghost predicate Judged(cfg: Config, p: Parse, rs: seq<Response>, i: nat)
    requires ParseOk(cfg, p) && i < |rs|
  {
    var m := Advance(cfg, p, rs[i]);
    && (m.Refused? <==> !Fits(cfg, rs, i))
    && (m.Delivered? ==> !rs[i].event.EndEvent? && Shows(cfg, rs, i, m.event) && Stands(m.parse, rs, i + 1))
    && (m.Final? ==> rs[i].event.EndEvent? && Shows(cfg, rs, i, Ended(m.outcome)))
  }

  lemma OpenColumns(cfg: Config, p: Parse)
    requires ParseOk(cfg, p) && p.open.Some?
    ensures ColumnsOk(cfg, p.open.value.columns)
  {
    hide Sentence, ColumnsOk;
  }

  lemma QueriedSoFar(rs: seq<Response>, i: nat)
    requires i < |rs|
    ensures (exists j :: 0 <= j < i + 1 && StartsQuery(rs[j])) <==>
            (exists j :: 0 <= j < i && StartsQuery(rs[j])) || StartsQuery(rs[i])
  {
  }

  lemma JudgeStart(cfg: Config, p: Parse, rs: seq<Response>, i: nat)
    requires ParseOk(cfg, p) && i < |rs| && Stands(p, rs, i) && rs[i].event.StartEvent?
    ensures Judged(cfg, p, rs, i)
  {
    hide Sentence, ColumnsOk, DecodeColumns, ColumnFits, Primaries, Queried, BlockOk;
    ColumnsFit(cfg, rs[i].event.wireColumns);
    QueriedSoFar(rs, i);
    if p.open.None? {
      assert Seen(p) == p.done;
      var b := SetBlock(rs[i].event.role, rs[i].event.wireColumns, []);
      PrimariesSnoc(p.done, b);
      assert Seen(Parse(p.done, Some(b))) == p.done + [b];
      assert RowsSince(rs, i, i + 1) == RowsSince(rs, i, i) == RowCount([]) == 0;
    }
  }

  lemma JudgeRows(cfg: Config, p: Parse, rs: seq<Response>, i: nat)
    requires ParseOk(cfg, p) && i < |rs| && Stands(p, rs, i) && rs[i].event.RowsEvent?
    ensures Judged(cfg, p, rs, i)
  {
    hide Sentence, ColumnsOk, DecodeColumns, DecodeBatch, BatchOk, RowFits, ShowsRow, Primaries, Queried, BlockOk,
         RowCount;
    QueriedSoFar(rs, i);
    if p.open.Some? {
      OpenColumns(cfg, p);
      var b, rows := p.open.value, rs[i].event.rows;
      BatchFits(cfg, b.columns, rows);
      var b' := b.(batches := b.batches + [rows]);
      PrimariesSnoc(p.done, b);
      PrimariesSnoc(p.done, b');
      Fetching.RowCountSnoc(b.batches, rows);
    }
  }

  lemma JudgeUpdate(cfg: Config, p: Parse, rs: seq<Response>, i: nat)
    requires ParseOk(cfg, p) && i < |rs| && Stands(p, rs, i) && rs[i].event.UpdateEvent?
    ensures Judged(cfg, p, rs, i)
  {
    hide Sentence, Primaries, Queried, BlockOk;
    QueriedSoFar(rs, i);
    if p.open.None? {
      assert Seen(p) == p.done;
      var b := UpdateBlock(rs[i].event.counts);
      PrimariesSnoc(p.done, b);
      assert Seen(Parse(p.done + [b], None)) == p.done + [b];
    }
  }

  lemma JudgeSetEnd(cfg: Config, p: Parse, rs: seq<Response>, i: nat)
    requires ParseOk(cfg, p) && i < |rs| && Stands(p, rs, i) && rs[i].event.SetEndEvent?
    ensures Judged(cfg, p, rs, i)
  {
    hide Sentence, Primaries, Queried, BlockOk, RowCount;
    QueriedSoFar(rs, i);
    if p.open.Some? {
      assert Seen(Parse(p.done + [p.open.value], None)) == Seen(p);
    }
  }

  lemma JudgeEnd(cfg: Config, p: Parse, rs: seq<Response>, i: nat)
    requires ParseOk(cfg, p) && i < |rs| && Stands(p, rs, i) && rs[i].event.EndEvent?
    ensures Judged(cfg, p, rs, i)
  {
    hide Sentence, Primaries, Queried, BlockOk, RowCount, DecodeOutcome, RowTheorems.ReportAllowed;
    if p.open.None? {
      assert Seen(p) == p.done;
      RowTheorems.OutcomeAcceptance(cfg, rs[i].event.end, Queried(p.done));
    }
  }

  lemma Judge(cfg: Config, p: Parse, rs: seq<Response>, i: nat)
    requires ParseOk(cfg, p) && i < |rs| && Stands(p, rs, i)
    ensures Judged(cfg, p, rs, i)
  {
    match rs[i].event
    case StartEvent(_, _, _, _) => JudgeStart(cfg, p, rs, i);
    case RowsEvent(_, _) => JudgeRows(cfg, p, rs, i);
    case UpdateEvent(_, _) => JudgeUpdate(cfg, p, rs, i);
    case SetEndEvent(_, _) => JudgeSetEnd(cfg, p, rs, i);
    case EndEvent(_) => JudgeEnd(cfg, p, rs, i);
    case NoEvent =>
  }

  // ---- whole runs ----

  /** The first n responses fit where they stand, none is an end, and these events show them. */
  ghost predicate Fitting(cfg: Config, rs: seq<Response>, n: nat, es: seq<Event>)
    requires n <= |rs|
  {
    && |es| == n
    && forall i :: 0 <= i < n ==> !rs[i].event.EndEvent? && Fits(cfg, rs, i) && Shows(cfg, rs, i, es[i])
  }

  lemma EmptyStands(rs: seq<Response>)
    ensures Stands(EMPTY, rs, 0)
  {
  }

  lemma {:induction false} StepsStand(cfg: Config, rs: seq<Response>, n: nat)
    requires n <= |rs| && Steps(cfg, rs[..n]).Some?
    ensures var (p, es) := Steps(cfg, rs[..n]).value;
            Stands(p, rs, n) && Fitting(cfg, rs, n, es)
    decreases n
  {
    hide Sentence, Advance, Stands, Fits, Shows;
    if n == 0 {
      EmptyStands(rs);
    } else {
      assert rs[..n][..n - 1] == rs[..n - 1] && rs[..n][n - 1] == rs[n - 1];
      StepsStand(cfg, rs, n - 1);
      Judge(cfg, Steps(cfg, rs[..n - 1]).value.0, rs, n - 1);
    }
  }

  /**
   * A reader is given one event for each response up to the first that does not fit where
   * it stands, and each shows its response; an end is given only if nothing follows it and
   * the call ends cleanly. With the end the stream has completed, and without it it failed:
   * with a protocol error, or with the call's own if no response was to blame.
   */
  lemma ReadResponseByResponse(cfg: Config, rs: seq<Response>, ending: Ending)
    ensures ParseOk(cfg, EMPTY)
    ensures var t := Read(cfg, EMPTY, rs, ending);
            var n := |t.events|;
            && n <= |rs|
            && (forall i :: 0 <= i < n ==> Fits(cfg, rs, i) && Shows(cfg, rs, i, t.events[i]))
            && (forall i :: 0 <= i < n && rs[i].event.EndEvent? ==> i + 1 == |rs| && ending.Clean?)
            && (n < |rs| && Fits(cfg, rs, n) ==> rs[n].event.EndEvent? && !(n + 1 == |rs| && ending.Clean?))
            && t.verdict ==
               (if n > 0 && rs[n - 1].event.EndEvent? then Completed
                else if n < |rs| && (n + 1 < |rs| || !Fits(cfg, rs, n)) then Failed(ProtocolError)
                else match ending
                     case Clean => Failed(ProtocolError)
                     case Broken(details) => Failed(RpcError(details)))
  {
    hide Sentence, Advance, Fits, Shows, Stands;
    EmptyParse(cfg);
    var n := Accepted(cfg, rs);
    StepsStand(cfg, rs, n);
    ReadAfterSteps(cfg, rs, ending, n);
    var (p, es) := Steps(cfg, rs[..n]).value;
    if n < |rs| {
      StepsOfOneMore(cfg, rs, n);
      Judge(cfg, p, rs, n);
      StopsHere(cfg, p, rs, n, ending);
      hide Read, Judged;
    }
  }

  lemma StopsHere(cfg: Config, p: Parse, rs: seq<Response>, n: nat, ending: Ending)
    requires ParseOk(cfg, p) && n < |rs| && Judged(cfg, p, rs, n) && !Advance(cfg, p, rs[n]).Delivered?
    ensures var t := Read(cfg, p, rs[n..], ending);
            if Fits(cfg, rs, n) && n + 1 == |rs| && ending.Clean? then
              && rs[n].event.EndEvent? && t.verdict.Completed?
              && |t.events| == 1 && Shows(cfg, rs, n, t.events[0])
            else
              && (Fits(cfg, rs, n) ==> rs[n].event.EndEvent?)
              && t.events == []
              && t.verdict == Failed(if n + 1 < |rs| || !Fits(cfg, rs, n) || ending.Clean? then ProtocolError
                                     else RpcError(ending.details))
  {
    hide Sentence, Advance, Fits, Shows, Stands;
    assert rs[n..][0] == rs[n] && |rs[n..]| == |rs| - n;
  }

  /**
   * A stream completes exactly when every response fits where it stands, the last one and
   * no other is the end, and the call ends cleanly.
   */
  lemma CompletesResponseByResponse(cfg: Config, rs: seq<Response>, ending: Ending)
    ensures ParseOk(cfg, EMPTY)
    ensures Read(cfg, EMPTY, rs, ending).verdict.Completed? <==>
              && ending.Clean? && rs != []
              && forall i :: 0 <= i < |rs| ==> Fits(cfg, rs, i) && (rs[i].event.EndEvent? <==> i == |rs| - 1)
  {
    hide Read, Sentence, Fits, Shows;
    ReadResponseByResponse(cfg, rs, ending);
  }
}
