/** Execute responses, the events delivered for them, and the negotiated limits. */
module Protocol {
  import opened Wrappers
  import opened Errors
  import opened Descriptors
  import opened Codec

  datatype Feature =
    | ARRAY_VALUES | SPATIAL_VALUES | LOB_READ | LOB_WRITE | MULTIPLE_RESULTS | GENERATED_KEYS
    | PARTIAL_RESULTS | TRANSACTION_IDS | TYPED_PARAMETERS
    | OtherFeature(name: string)

  // ---- wire messages ----

  datatype Role = Query | GeneratedKeys | OtherRole(number: int)

  datatype WireColumn = WireColumn(name: string, declared: Option<TypeDescriptor>)

  datatype WireCount = Affected(rows: nat) | UnknownCount | NoCount

  datatype WarningRole = General | PartialResultCause | OtherWarningRole(number: int)

  datatype Warning = Warning(
    code: string, message: string, role: WarningRole, occurrences: int,
    sqlState: Option<string>, affected: seq<string>)

  datatype Completeness = Unspecified | Complete | Partial | OtherCompleteness(number: int)

  type WireRow = seq<WireValue>

  datatype EndMessage = EndMessage(
    resultCount: int, transaction: Option<Status>, completeness: Completeness,
    warnings: seq<Warning>, omitted: nat)

  /** The event oneof of a response; `NoEvent` has no recognized member. */
  datatype WireEvent =
    | NoEvent
    | StartEvent(resultId: int, role: Role, parent: Option<int>, wireColumns: seq<WireColumn>)
    | RowsEvent(resultId: int, rows: seq<WireRow>)
    | UpdateEvent(resultId: int, counts: seq<WireCount>)
    | SetEndEvent(resultId: int, rowCount: int)
    | EndEvent(end: EndMessage)

  /** A response with its serialized sizes; `batchBytes` is read for row batches only. */
  datatype Response = Response(event: WireEvent, bytes: nat, batchBytes: nat)

  /** How the call ends after its last response, however often it is asked. */
  datatype Ending = Clean | Broken(details: RpcDetails)

  // ---- delivered events ----

  datatype Column = Column(name: string, declared: TypeDescriptor)

  type Row = seq<Value>

  datatype Outcome = Outcome(
    resultCount: int, status: Status, completeness: Completeness, warnings: seq<Warning>, omitted: nat)

  datatype Event =
    | Started(resultId: int, columns: seq<Column>, role: Role, parent: Option<int>)
    | Rows(resultId: int, rows: seq<Row>)
    | Updated(resultId: int, counts: seq<Option<nat>>)
    | SetEnded(resultId: int, rowCount: int)
    | Ended(outcome: Outcome)

  /** What the client accepted and what the server's capabilities allow. */
  datatype Config = Config(
    lib: Library,
    accepted: set<Feature>,
    outputTypes: set<ValueType>,
    maxDimensions: nat,
    maxResponseBytes: nat,
    maxBatchBytes: nat,
    maxRowsPerBatch: nat,
    allowPartial: bool,
    maxWarnings: int,
    maxAffected: int)

  // ---- checks that look at one message only ----

  predicate InLimits(cfg: Config, r: Response) {
    && r.bytes <= cfg.maxResponseBytes
    && (r.event.RowsEvent? ==>
          |r.event.rows| <= cfg.maxRowsPerBatch && r.batchBytes <= cfg.maxBatchBytes)
  }

  /** A column is declared, well formed, and within the output capabilities. */
  function DecodeColumn(cfg: Config, c: WireColumn): Result<Column, Error> {
    if c.declared.None? then Failure(ProtocolError)
    else if ValidateTypeDescriptor(c.declared.value).Failure? then Failure(ProtocolError)
    else
      var _ :- ValidateOutputDescriptor(
        c.declared.value, cfg.outputTypes, ARRAY_VALUES in cfg.accepted, cfg.maxDimensions);
      Success(Column(c.name, c.declared.value))
  }

  /** The output features a value uses, inside arrays as well, were all accepted. */
  predicate OutputValueAccepted(cfg: Config, w: WireValue)
    decreases w
  {
    if w.ArrayValue? then
      ARRAY_VALUES in cfg.accepted && forall e | e in w.elements :: OutputValueAccepted(cfg, e)
    else if w.GeometryWithCrs? || w.GeographyWithCrs? then SPATIAL_VALUES in cfg.accepted
    else if w.LobValue? then LOB_READ in cfg.accepted
    else true
  }

  function DecodeCells(cfg: Config, row: WireRow, columns: seq<Column>): (r: Option<Row>)
    requires |row| == |columns|
    ensures r.Some? ==> |r.value| == |row|
  {
    if row == [] then Some([])
    else
      match (Decode(cfg.lib, row[0], columns[0].declared), DecodeCells(cfg, row[1..], columns[1..]))
      case (Success(first), Some(rest)) => Some([first] + rest)
      case _ => None
  }

  /** One row under the open result set's columns; `None` stands for ProtocolError. */
  function DecodeRow(cfg: Config, columns: seq<Column>, row: WireRow): (r: Option<Row>)
    ensures r.Some? ==> |r.value| == |columns|
  {
    if |row| != |columns| then None
    else if DecodeCells(cfg, row, columns).None? then None
    else if !(forall w | w in row :: OutputValueAccepted(cfg, w)) then None
    else DecodeCells(cfg, row, columns)
  }

  predicate BatchOk(cfg: Config, columns: seq<Column>, batch: seq<WireRow>) {
    forall row | row in batch :: DecodeRow(cfg, columns, row).Some?
  }

  function DecodeBatch(cfg: Config, columns: seq<Column>, batch: seq<WireRow>): (rows: seq<Row>)
    requires BatchOk(cfg, columns, batch)
    ensures |rows| == |batch|
  {
    seq(|batch|, i requires 0 <= i < |batch| => DecodeRow(cfg, columns, batch[i]).value)
  }

  predicate ColumnsOk(cfg: Config, columns: seq<WireColumn>) {
    forall c | c in columns :: DecodeColumn(cfg, c).Success?
  }

  function DecodeColumns(cfg: Config, columns: seq<WireColumn>): (r: seq<Column>)
    requires ColumnsOk(cfg, columns)
    ensures |r| == |columns|
  {
    seq(|columns|, i requires 0 <= i < |columns| => DecodeColumn(cfg, columns[i]).value)
  }

  predicate CountsOk(counts: seq<WireCount>) {
    counts != [] && NoCount !in counts
  }

  function DecodeCounts(counts: seq<WireCount>): (r: seq<Option<nat>>)
    requires NoCount !in counts
    ensures |r| == |counts|
  {
    seq(|counts|, i requires 0 <= i < |counts| => if counts[i].Affected? then Some(counts[i].rows) else None)
  }

  predicate IsSqlState(s: string) {
    |s| == 5 && forall i :: 0 <= i < 5 ==> '0' <= s[i] <= '9' || 'A' <= s[i] <= 'Z'
  }

  predicate WarningOk(cfg: Config, w: Warning) {
    && w.code != "" && w.message != ""
    && !w.role.OtherWarningRole?
    && w.occurrences > 0
    && |w.affected| <= cfg.maxAffected
    && (w.sqlState.Some? ==> IsSqlState(w.sqlState.value))
  }

  predicate HasCause(warnings: seq<Warning>) {
    exists w | w in warnings :: w.role == PartialResultCause
  }

  /** `_decode_execution_outcome`: completeness and warnings, given whether a query ran. */
  function DecodeOutcome(cfg: Config, end: EndMessage, queried: bool):
    Result<(Completeness, seq<Warning>, nat), Error>
  {
    if PARTIAL_RESULTS !in cfg.accepted then
      if end.completeness != Unspecified || end.warnings != [] || end.omitted != 0 then Failure(ProtocolError)
      else Success((Unspecified, [], 0))
    else if cfg.maxWarnings <= 0 || cfg.maxAffected <= 0 || |end.warnings| > cfg.maxWarnings then
      Failure(ProtocolError)
    else if end.completeness !in {Complete, Partial} then Failure(ProtocolError)
    else if !(forall w | w in end.warnings :: WarningOk(cfg, w)) then Failure(ProtocolError)
    else if end.completeness == Complete then
      if HasCause(end.warnings) then Failure(ProtocolError)
      else Success((Complete, end.warnings, end.omitted))
    else if !cfg.allowPartial || !queried || !HasCause(end.warnings) then Failure(ProtocolError)
    else Success((Partial, end.warnings, end.omitted))
  }
}
