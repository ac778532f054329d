/** What the checks on columns, rows, values and outcomes of a stream come to, taken whole. */
module RowTheorems {
  import opened Wrappers
  import opened Errors
  import opened Descriptors
  import opened LocalTimes
  import opened Codec
  import opened CodecTheorems
  import opened Protocol
  import opened Grammar
  import opened Transcripts
  import opened Fetching
  import opened CursorStreams

  /** A column is accepted exactly when it is declared within the output capabilities. */
  lemma ColumnAcceptance(cfg: Config, c: WireColumn)
    ensures DecodeColumn(cfg, c).Success? <==>
              && c.declared.Some?
              && WellFormed(c.declared.value)
              && LevelsSupported(c.declared.value, cfg.outputTypes)
              && Depth(c.declared.value) <= cfg.maxDimensions
              && (Depth(c.declared.value) > 0 ==> ARRAY_VALUES in cfg.accepted)
    ensures DecodeColumn(cfg, c).Success? ==> DecodeColumn(cfg, c).value == Column(c.name, c.declared.value)
  {
    hide WellFormed, LevelsSupported, Depth, ValidateTypeDescriptor, ValidateOutputDescriptor;
    if c.declared.Some? {
      ValidationIsWellFormedness(c.declared.value);
      OutputDescriptorAcceptance(
        c.declared.value, cfg.outputTypes, ARRAY_VALUES in cfg.accepted, cfg.maxDimensions);
    }
  }

  /** The feature one wire value needs by itself, elements aside. */
  function OutputFeature(w: WireValue): set<Feature> {
    if w.ArrayValue? then {ARRAY_VALUES}
    else if w.GeometryWithCrs? || w.GeographyWithCrs? then {SPATIAL_VALUES}
    else if w.LobValue? then {LOB_READ}
    else {}
  }

  /** A value is accepted exactly when the features of all nested values were accepted. */
  lemma {:induction false} ValueAcceptance(cfg: Config, w: WireValue)
    ensures OutputValueAccepted(cfg, w) <==> forall n | n in Nested(w) :: OutputFeature(n) <= cfg.accepted
    decreases w, 1
  {
    assert Nested(w) == [w] + if w.ArrayValue? then NestedAll(w.elements) else [];
    assert w in Nested(w);
    if w.ArrayValue? {
      ValuesAcceptance(cfg, w.elements);
      assert forall n :: n in Nested(w) <==> n == w || n in NestedAll(w.elements);
      assert (forall n | n in Nested(w) :: OutputFeature(n) <= cfg.accepted) <==>
             && OutputFeature(w) <= cfg.accepted
             && forall n | n in NestedAll(w.elements) :: OutputFeature(n) <= cfg.accepted;
      assert OutputFeature(w) == {ARRAY_VALUES};
    } else {
      assert Nested(w) == [w];
    }
  }

  lemma {:induction false} ValuesAcceptance(cfg: Config, ws: seq<WireValue>)
    ensures (forall w | w in ws :: OutputValueAccepted(cfg, w)) <==>
            forall n | n in NestedAll(ws) :: OutputFeature(n) <= cfg.accepted
    decreases ws, 0
  {
    hide OutputValueAccepted, OutputFeature, Nested;
    if ws != [] {
      ValueAcceptance(cfg, ws[0]);
      ValuesAcceptance(cfg, ws[1..]);
      assert NestedAll(ws) == Nested(ws[0]) + NestedAll(ws[1..]);
      assert forall w :: w in ws <==> w == ws[0] || w in ws[1..];
      assert forall n :: n in NestedAll(ws) <==> n in Nested(ws[0]) || n in NestedAll(ws[1..]);
    }
  }

  /** Cell by cell, in the order of the columns. */
  lemma {:induction false} CellsDecode(cfg: Config, row: WireRow, columns: seq<Column>)
    requires |row| == |columns|
    ensures DecodeCells(cfg, row, columns).Some? <==>
            forall i :: 0 <= i < |row| ==> Decode(cfg.lib, row[i], columns[i].declared).Success?
    ensures DecodeCells(cfg, row, columns).Some? ==>
            forall i :: 0 <= i < |row| ==>
                          DecodeCells(cfg, row, columns).value[i] == Decode(cfg.lib, row[i], columns[i].declared).value
  {
    hide Decode;
    if row != [] {
      var tail, rest := row[1..], columns[1..];
      CellsDecode(cfg, tail, rest);
      assert forall i :: 0 <= i < |tail| ==> tail[i] == row[i + 1] && rest[i] == columns[i + 1];
      assert forall i :: 1 <= i < |row| ==> row[i] == tail[i - 1] && columns[i] == rest[i - 1];
    }
  }

  /**
   * A row is delivered exactly when it has one value per column, each decodes under its
   * column's type, and every feature nested in it was accepted; it holds those values.
   */
  lemma RowAcceptance(cfg: Config, columns: seq<Column>, row: WireRow)
    ensures DecodeRow(cfg, columns, row).Some? <==>
              && |row| == |columns|
              && (forall i :: 0 <= i < |row| ==> Decode(cfg.lib, row[i], columns[i].declared).Success?)
              && (forall n | n in NestedAll(row) :: OutputFeature(n) <= cfg.accepted)
    ensures DecodeRow(cfg, columns, row).Some? ==>
              forall i :: 0 <= i < |row| ==>
                            DecodeRow(cfg, columns, row).value[i] == Decode(cfg.lib, row[i], columns[i].declared).value
  {
    hide Decode, OutputFeature, NestedAll, DecodeCells, OutputValueAccepted;
    ValuesAcceptance(cfg, row);
    if |row| == |columns| {
      CellsDecode(cfg, row, columns);
    }
  }

  predicate Alphanumeric(s: string) {
    forall i :: 0 <= i < |s| ==> '0' <= s[i] <= '9' || 'A' <= s[i] <= 'Z'
  }

  /** What an end may report, in terms of what was negotiated and whether a query ran. */
  predicate ReportAllowed(cfg: Config, end: EndMessage, queried: bool) {
    if PARTIAL_RESULTS in cfg.accepted then
      && cfg.maxAffected > 0 && 0 < cfg.maxWarnings && |end.warnings| <= cfg.maxWarnings
      && (forall w | w in end.warnings ::
            && w.code != "" && w.message != "" && w.role in {General, PartialResultCause} && w.occurrences > 0
            && |w.affected| <= cfg.maxAffected
            && (w.sqlState.Some? ==> |w.sqlState.value| == 5 && Alphanumeric(w.sqlState.value)))
      && (if exists w | w in end.warnings :: w.role == PartialResultCause
          then end.completeness == Partial && cfg.allowPartial && queried
          else end.completeness == Complete)
    else
      (end.completeness, end.warnings, end.omitted) == (Unspecified, [], 0)
  }

  /**
   * After the responses of any sentence, a last response with an end completes the stream
   * exactly when it counts the results, carries a sound status, and reports what was
   * negotiated and delivered; and then the outcome handed out last is what it says.
   */
  lemma EndIsDeliveredExactly(cfg: Config, blocks: seq<Block>, end: EndMessage, rs: seq<Response>)
    requires Sentence(cfg, blocks) && Spells(cfg, rs, Wire(blocks) + [EndEvent(end)])
    ensures (forall b | b in blocks :: BlockOk(cfg, b))
    ensures var t := Read(cfg, EMPTY, rs, Clean);
            && (t.verdict.Completed? <==>
                  && end.resultCount == |blocks|
                  && end.transaction.Some? && DecodeStatus(end.transaction.value).Success?
                  && ReportAllowed(cfg, end, HasQuery(Events(cfg, blocks))))
            && (t.verdict.Completed? ==>
                  t.events == Events(cfg, blocks)
                              + [Ended(Outcome(end.resultCount, end.transaction.value, end.completeness,
                                               end.warnings, end.omitted))])
  {
    hide Sentence, Wire, Events, DecodeStatus, InLimits, BlockOk, Read, Queried, DecodeOutcome, ReportAllowed,
         HasQuery;
    EmptyParse(cfg);
    SentenceBlocks(cfg, blocks);
    QueriedIsDelivered(cfg, blocks);
    OutcomeAcceptance(cfg, end, Queried(blocks));
    if EndOk(cfg, blocks, end) {
      ConformingIsDelivered(cfg, blocks, end, rs);
    } else if Read(cfg, EMPTY, rs, Clean).verdict.Completed? {
      var blocks', end' := CompletionConforms(cfg, rs, Clean);
      GrammarIsUnambiguous(cfg, rs, blocks, end, blocks', end');
    }
  }

  lemma OutcomeAcceptance(cfg: Config, end: EndMessage, queried: bool)
    ensures DecodeOutcome(cfg, end, queried).Success? <==> ReportAllowed(cfg, end, queried)
    ensures DecodeOutcome(cfg, end, queried).Success? ==>
              DecodeOutcome(cfg, end, queried).value == (end.completeness, end.warnings, end.omitted)
  {
    forall w | w in end.warnings && w.sqlState.Some?
      ensures IsSqlState(w.sqlState.value) <==> |w.sqlState.value| == 5 && Alphanumeric(w.sqlState.value)
    {
    }
  }

  /** The row count of updates adds up, and one unknown count makes the whole unknown. */
  lemma {:induction false} UpdateRowcountAdds(a: seq<Option<nat>>, b: seq<Option<nat>>)
    ensures UpdateRowcount(a + b) ==
            if UpdateRowcount(a) < 0 || UpdateRowcount(b) < 0 then -1 else UpdateRowcount(a) + UpdateRowcount(b)
    ensures a == [None] ==> UpdateRowcount(a) == -1
    ensures |a| == 1 && a[0].Some? ==> UpdateRowcount(a) == a[0].value
  {
    if |a| == 1 {
      assert a[1..] == [];
    }
    if a == [] {
      assert a + b == b;
    } else {
      assert a + b == [a[0]] + (a[1..] + b);
      assert None in a <==> a[0].None? || None in a[1..];
      UpdateRowcountAdds(a[1..], b);
    }
  }

  /** An adapted timestamp keeps its day and its instant; the wrapper is kept only when it must. */
  lemma TimestampAdaptationIsLossless(text: string)
    requires IsLocalTimestamp(text)
    ensures var (day, clock) := ParseLocalTimestamp(text).value;
            match AdaptValue(LocalTimestamp(text))
            case Datetime(date, time, aware) =>
              && !aware && date == day && ValidTime(time)
              && InstantOfTime(time) == InstantOfClock(ParseLocalTime(clock).value)
            case v => v == LocalTimestamp(text) && !WholeMicroseconds(ParseLocalTime(clock).value.fraction)
  {
    hide ParseLocalTime, Nanoseconds;
    ToTimeIsExact(ParseLocalTimestamp(text).value.1);
  }
}
