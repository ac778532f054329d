/** What executing, committing and rolling back come to, from the server's replies. */
module Executions {
  import opened Wrappers
  import opened Errors
  import opened Protocol
  import opened Transcripts
  import opened Transactions
  import opened Requests
  import opened CursorStreams
  import opened Fetching

  // ---- what the server answers ----

  datatype BeginReply = BeginFailed(details: RpcDetails) | BeginReplied(id: string)

  datatype TxReply = TxFailed(details: RpcDetails) | TxReplied(success: bool, transaction: Option<Status>)

  datatype CallReply = CallFailed(details: RpcDetails) | CallAccepted(responses: seq<Response>, ending: Ending)

  datatype LogoutReply = LogoutFailed(details: RpcDetails) | LogoutReplied(success: bool)

  datatype ExecuteReply = ExecuteReply(begin: BeginReply, requestBytes: nat, call: CallReply)

  /** `commit_transaction` and `rollback_transaction` after the reply has come. */
  function TerminalReply(reply: TxReply): Result<Status, Error> {
    match reply
    case TxFailed(details) => Failure(RpcError(details))
    case TxReplied(success, transaction) =>
      if !success || transaction.None? then Failure(ProtocolError) else DecodeStatus(transaction.value)
  }

  /** `begin_transaction` after the reply has come. */
  function BegunId(reply: BeginReply): Result<string, Error> {
    match reply
    case BeginFailed(details) => Failure(RpcError(details))
    case BeginReplied(id) => if id == "" then Failure(ProtocolError) else Success(id)
  }

  /** `Session.close`: the logout's own failure, if any. */
  function LogoutError(reply: LogoutReply): Option<Error> {
    match reply
    case LogoutFailed(details) => Some(Translate(RpcError(details)))
    case LogoutReplied(success) => if success then None else Some(Translate(ProtocolError))
  }

  // ---- ending transactions ----

  /** The error a transaction call raises for a reply, if any. */
  function CallError(reply: Result<Status, Error>, expected: Status): Option<Error> {
    match reply
    case Failure(error) => Some(Translate(error))
    case Success(status) => if status == expected then None else Some(InternalError)
  }

  /** `commit` once no execution is running: at most one call, never a second one. */
  function Committed(l: Ledger, reply: Result<Status, Error>): (Option<Error>, Ledger) {
    if l.tx.id.None? then (None, l)
    else if l.tx.state == StateRollbackOnly || l.tx.commitAttempted then (Some(OperationalError), l)
    else
      var id := l.tx.id.value;
      (CallError(reply, Status(id, StateCommitted)), Enter(l, Action.Commit(id, reply)))
  }

  /** `rollback`, or the rollback of `close`, once no execution is running. */
  function RolledBack(l: Ledger, reply: Result<Status, Error>, closing: bool): (Option<Error>, Ledger) {
    if l.tx.id.None? || (closing && l.tx.state !in {StateActive, StateRollbackOnly}) then (None, l)
    else
      var id := l.tx.id.value;
      (CallError(reply, Status(id, StateRolledBack)), Enter(l, Action.Rollback(id, reply, closing)))
  }

  /** A running execution is discarded first. */
  function Dropped(l: Ledger, running: bool): Ledger {
    if running then Enter(l, Discard) else l
  }

  // ---- one execution ----

  /** What a connection was opened with. */
  datatype Terms = Terms(info: ServerInfo, allowPartial: bool)

  /** The configuration under which every reply on the connection is read. */
  function Reader(terms: Terms): Config {
    StreamConfig(terms.info, AcceptedOutputFeatures(terms.info), terms.allowPartial)
  }

  /** The second argument of `execute`; anything but a positional sequence is refused. */
  datatype Parameters = Absent | Positional(arguments: seq<Argument>) | NotPositional

  predicate SoundParameters(terms: Terms, p: Parameters) {
    p.Positional? ==> forall a | a in p.arguments :: SoundArgument(terms.info.lib, a)
  }

  function ArgumentsOf(p: Parameters): seq<Argument>
    requires !p.NotPositional?
  {
    if p.Absent? then [] else p.arguments
  }

  function NotLaunched(error: Error, l: Ledger): Launched {
    Launched(Some(error), [], FetchState(NoResult, -1, NO_REPORT, l))
  }

  /** The transaction to execute under, and the ledger after it is settled. */
  datatype Admitted = Admitted(id: Result<string, Error>, ledger: Ledger)

  /** `_transaction_for_execute` on an open connection. */
  function AdmitUnder(info: ServerInfo, l: Ledger, begin: BeginReply): Admitted {
    match Admit(l.tx)
    case UseId(id) => Admitted(Success(id), l)
    case Refuse(error) => Admitted(Failure(error), l)
    case NeedsBegin =>
      if TRANSACTION_IDS !in info.features then Admitted(Failure(Translate(CapabilityError)), l)
      else
        var entered := Enter(l, Action.Begin(BegunId(begin)));
        match BegunId(begin)
        case Failure(error) => Admitted(Failure(Translate(error)), entered)
        case Success(id) => Admitted(Success(id), entered)
  }

  /** `execute` on a reset cursor. */
  function Launch(
    terms: Terms, l: Ledger, slotTaken: bool, operation: string, arguments: seq<Argument>, batchSize: int,
    reply: ExecuteReply): Launched
    requires forall a | a in arguments :: SoundArgument(terms.info.lib, a)
  {
    match AdmitUnder(terms.info, l, reply.begin)
    case Admitted(Failure(error), l') => NotLaunched(error, l')
    case Admitted(Success(id), l') =>
      if slotTaken then NotLaunched(OperationalError, l')
      else LaunchUnder(terms, l', operation, arguments, batchSize, reply, id)
  }

  function LaunchUnder(
    terms: Terms, l: Ledger, operation: string, arguments: seq<Argument>, batchSize: int, reply: ExecuteReply,
    id: string): Launched
    requires forall a | a in arguments :: SoundArgument(terms.info.lib, a)
  {
    var accepted := AcceptedOutputFeatures(terms.info);
    var refusal :=
      Refusal(terms.info, operation, arguments, id, batchSize, accepted, terms.allowPartial, false,
              reply.requestBytes);
    if refusal.Some? then NotLaunched(Translate(refusal.value), l) else LaunchCall(Reader(terms), l, reply.call, id)
  }

  function LaunchCall(cfg: Config, l: Ledger, call: CallReply, id: string): Launched {
    var sent := Enter(l, Action.Execute(id));
    match call
    case CallFailed(details) => NotLaunched(DatabaseError(details), Enter(sent, Action.Fail(RpcError(details))))
    case CallAccepted(responses, ending) =>
      OpenExecution(Whole(cfg, responses, ending), id, -1, sent)
  }

  // ---- a cursor, the connection aside ----

  datatype Desk = Desk(
    closed: bool, arraysize: nat, columns: seq<Column>, shelf: Shelf, rowcount: int, report: Report)

  const FRESH_DESK := Desk(false, 1, [], NoResult, -1, NO_REPORT)

  function Seated(d: Desk, l: Ledger): FetchState { FetchState(d.shelf, d.rowcount, d.report, l) }

  /** The desk with a result in the given state. */
  function Reseated(d: Desk, s: FetchState): Desk {
    d.(shelf := s.shelf, rowcount := s.rowcount, report := s.report)
  }

  /** Cancelled without forgetting what the result was. */
  function Cut(d: Desk): Desk { if d.shelf.Open? then d.(shelf := Exhausted) else d }

  /** Nothing is left of any earlier result. */
  function Reset(d: Desk): Desk {
    d.(columns := [], shelf := NoResult, rowcount := -1, report := NO_REPORT)
  }

  /** What one operation leaves behind: an error to raise, if any, the cursor, and the ledger. */
  datatype Aftermath = Aftermath(failure: Option<Error>, desk: Desk, ledger: Ledger)

  /** `execute` on an open cursor of an open connection. */
  function ExecuteOn(
    terms: Terms, d: Desk, l: Ledger, slotTaken: bool, operation: string, p: Parameters, reply: ExecuteReply): Aftermath
    requires SoundParameters(terms, p)
  {
    if operation == "" || p.NotPositional? then Aftermath(Some(ProgrammingError), d, l)
    else
      var launched :=
        Launch(terms, Dropped(l, d.shelf.Open?), slotTaken, operation, ArgumentsOf(p), d.arraysize, reply);
      Aftermath(launched.failure, Reseated(d, launched.state).(columns := launched.columns), launched.state.ledger)
  }

  // ---- executemany ----

  /** One parameter sequence of `executemany`, with what the server answers to its execution. */
  datatype Batch = Batch(parameters: Parameters, reply: ExecuteReply)

  predicate SoundBatches(terms: Terms, batches: seq<Batch>) {
    forall b | b in batches :: SoundParameters(terms, b.parameters)
  }

  /** A known total stays known only while the counts are. */
  function Plus(total: int, count: int): int {
    if count < 0 || total < 0 then -1 else total + count
  }

  /** One execution of `executemany`: a statement that produces rows is cancelled and refused. */
  function ExecuteForCount(
    terms: Terms, d: Desk, l: Ledger, slotTaken: bool, operation: string, b: Batch): Aftermath
    requires SoundParameters(terms, b.parameters)
  {
    var o := ExecuteOn(terms, d, l, slotTaken, operation, b.parameters, b.reply);
    if o.failure.Some? || !o.desk.shelf.Open? then o
    else Aftermath(Some(NotSupportedError), Cut(o.desk), Dropped(o.ledger, true))
  }

  /** One execution after the other, up to the first error; the total is reported at the end. */
  function ExecuteEach(
    terms: Terms, d: Desk, l: Ledger, slotTaken: bool, operation: string, batches: seq<Batch>, total: int): Aftermath
    requires SoundBatches(terms, batches)
    decreases |batches|
  {
    if batches == [] then Aftermath(None, d.(rowcount := total), l)
    else
      assert batches[0] in batches;
      var o := ExecuteForCount(terms, d, l, slotTaken, operation, batches[0]);
      if o.failure.Some? then o
      else ExecuteEach(terms, o.desk, o.ledger, slotTaken, operation, batches[1..], Plus(total, o.desk.rowcount))
  }

  /** `executemany` on an open cursor of an open connection; `None` is no iterable of sequences. */
  function ExecuteManyOn(
    terms: Terms, d: Desk, l: Ledger, slotTaken: bool, operation: string, batches: Option<seq<Batch>>): Aftermath
    requires batches.Some? ==> SoundBatches(terms, batches.value)
  {
    if batches.None? then Aftermath(Some(ProgrammingError), d, l)
    else if batches.value == [] then Aftermath(None, Reset(d).(rowcount := 0), Dropped(l, d.shelf.Open?))
    else ExecuteEach(terms, d, l, slotTaken, operation, batches.value, 0)
  }
}
