/**
 * What each public call answers, sends and leaves behind, in terms of the fields before it
 * and the server's raw reply. Nothing here refers to how the machine computes its steps.
 * No program ever holds an empty identifier (`LogTheorems.HeldIdentifiersAreSound`).
 */
module OperationTheorems {
  import opened Wrappers
  import opened Errors
  import opened Protocol
  import opened Grammar
  import opened Transactions
  import opened Requests
  import opened Transcripts
  import opened Fetching
  import opened CursorStreams
  import opened Executions
  import opened Worlds
  import RowTheorems

  // ---- ending transactions ----

  /** The log once the execution that may be running is cancelled. */
  function LogWithoutRunning(w: World): seq<Action> {
    w.ledger.log + if exists k :: 0 <= k < |w.desks| && w.desks[k].shelf.Open? then [Discard] else []
  }

  /** The state of an identifier and the identifier itself contradict each other. */
  predicate Contradictory(status: Status) {
    if status.id == "" then status.state in {StateActive, StateRollbackOnly, StateCommitted, StateRolledBack}
    else status.state == StateNone
  }

  /** The one reply that ends the transaction as it was asked to. */
  predicate Confirms(reply: TxReply, id: string, state: TxState) {
    reply == TxReplied(true, Some(Status(id, state)))
  }

  /** The fields once the transaction is over. */
  function NoTransaction(autocommit: bool): Tx { Tx(autocommit, None, StateNone, false) }

  /** The state a reply leaves recorded that does not confirm the end of the held transaction. */
  function StateAfter(reply: TxReply, id: string): TxState {
    match reply
    case TxFailed(details) =>
      if details.transactionId == Some(id) && details.transactionState.Some? then details.transactionState.value
      else StateUnknown
    case TxReplied(success, transaction) =>
      if success && transaction.Some? && !Contradictory(transaction.value) then transaction.value.state
      else StateUnknown
  }

  /** A failure that says the transaction is over ends it, although not as asked. */
  predicate EndsAnyway(reply: TxReply, id: string) {
    && reply.TxFailed?
    && reply.details.transactionId == Some(id)
    && reply.details.transactionState in {Some(StateCommitted), Some(StateRolledBack)}
  }

  function AnswerTo(reply: TxReply): Answer {
    match reply
    case TxFailed(details) => Failure(DatabaseError(details))
    case TxReplied(_, _) => Failure(InternalError)
  }

  /** A reply is a status exactly when it reports success with one that does not contradict itself. */
  lemma TerminalReplyMeans(reply: TxReply)
    ensures forall status ::
              TerminalReply(reply) == Success(status) <==>
              reply == TxReplied(true, Some(status)) && !Contradictory(status)
    ensures TerminalReply(reply).Failure? ==>
              TerminalReply(reply).error == if reply.TxFailed? then RpcError(reply.details) else ProtocolError
  {
  }

  lemma QuietLedger(w: World)
    ensures Quiet(w).ledger == Dropped(w.ledger, Running(w)) == Ledger(w.ledger.tx, LogWithoutRunning(w))
  {
  }

  lemma CommittedSays(l: Ledger, reply: TxReply)
    requires l.tx.id != Some("")
    ensures var (failure, after) := Committed(l, TerminalReply(reply));
            if l.tx.id.Some? && l.tx.state != StateRollbackOnly && !l.tx.commitAttempted then
              var id := l.tx.id.value;
              && after.log == l.log + [Action.Commit(id, TerminalReply(reply))]
              && Raised(failure) == (if Confirms(reply, id, StateCommitted) then Success([]) else AnswerTo(reply))
              && after.tx == if Confirms(reply, id, StateCommitted) || EndsAnyway(reply, id)
                             then NoTransaction(l.tx.autocommit)
                             else Tx(l.tx.autocommit, Some(id), StateAfter(reply, id), true)
            else
              after == l && Raised(failure) == if l.tx.id.None? then Success([]) else Failure(OperationalError)
  {
  }

  lemma RolledBackSays(l: Ledger, reply: TxReply, closing: bool)
    requires l.tx.id != Some("")
    ensures var (failure, after) := RolledBack(l, TerminalReply(reply), closing);
            if l.tx.id.Some? && (closing ==> l.tx.state in {StateActive, StateRollbackOnly}) then
              var id := l.tx.id.value;
              && after.log == l.log + [Action.Rollback(id, TerminalReply(reply), closing)]
              && Raised(failure) == (if Confirms(reply, id, StateRolledBack) then Success([]) else AnswerTo(reply))
              && (!closing ==>
                    after.tx == if Confirms(reply, id, StateRolledBack) || EndsAnyway(reply, id)
                                then NoTransaction(l.tx.autocommit)
                                else l.tx.(state := StateAfter(reply, id)))
            else
              after == l && failure.None?
  {
  }

  /**
   * `commit`: one Commit naming the held transaction, unless none is held, it is
   * rollback-only, or it had its commit already. Only a reply that names the transaction
   * as committed makes it succeed and lets the identifier go.
   */
  lemma CommitSays(w: World, reply: TxReply)
    requires !w.closed && w.ledger.tx.id != Some("")
    ensures var tx, m := w.ledger.tx, Step(w, Call.Commit(reply));
            if tx.id.Some? && tx.state != StateRollbackOnly && !tx.commitAttempted then
              var id := tx.id.value;
              && m.world.ledger.log == LogWithoutRunning(w) + [Action.Commit(id, TerminalReply(reply))]
              && (if Confirms(reply, id, StateCommitted) then
                    m.answer == Success([]) && m.world.ledger.tx == NoTransaction(tx.autocommit)
                  else
                    && m.answer == AnswerTo(reply)
                    && m.world.ledger.tx == if EndsAnyway(reply, id) then NoTransaction(tx.autocommit)
                                            else Tx(tx.autocommit, Some(id), StateAfter(reply, id), true))
            else
              && m.world.ledger == Ledger(tx, LogWithoutRunning(w))
              && m.answer == if tx.id.None? then Success([]) else Failure(OperationalError)
  {
    hide Committed, TerminalReply, Enter, LogWithoutRunning;
    QuietLedger(w);
    CommittedSays(Quiet(w).ledger, reply);
  }

  /** `rollback`: one Rollback naming the held transaction, whatever its recorded state. */
  lemma RollbackSays(w: World, reply: TxReply)
    requires !w.closed && w.ledger.tx.id != Some("")
    ensures var tx, m := w.ledger.tx, Step(w, Call.Rollback(reply));
            if tx.id.Some? then
              var id := tx.id.value;
              && m.world.ledger.log == LogWithoutRunning(w) + [Action.Rollback(id, TerminalReply(reply), false)]
              && (if Confirms(reply, id, StateRolledBack) then
                    m.answer == Success([]) && m.world.ledger.tx == NoTransaction(tx.autocommit)
                  else
                    && m.answer == AnswerTo(reply)
                    && m.world.ledger.tx == if EndsAnyway(reply, id) then NoTransaction(tx.autocommit)
                                            else tx.(state := StateAfter(reply, id)))
            else
              m.world.ledger == Ledger(tx, LogWithoutRunning(w)) && m.answer == Success([])
  {
    hide RolledBack, TerminalReply, Enter, LogWithoutRunning;
    QuietLedger(w);
    RolledBackSays(Quiet(w).ledger, reply, false);
  }

  /** Ending a transaction takes the result of the execution that was running, and no other. */
  lemma EndingLeavesOtherCursors(w: World, call: Call, i: nat)
    requires !w.closed && i < |w.desks|
    requires call.Commit? || call.Rollback? || (call.SetAutocommit? && call.value && !w.ledger.tx.autocommit)
    ensures var d, d' := w.desks[i], Step(w, call).world.desks[i];
            if d.shelf.Open? then d' == Desk(d.closed, d.arraysize, [], NoResult, -1, Report(None, [], 0)) else d' == d
    ensures |Step(w, call).world.desks| == |w.desks| && !Step(w, call).world.closed
  {
    hide TerminalReply, Committed, RolledBack, Running;
  }

  /** Switching to autocommit is a commit and, if that succeeds, the switch. */
  lemma SwitchSays(w: World, value: bool, reply: TxReply)
    requires !w.closed
    ensures var m, committed := Step(w, Call.SetAutocommit(value, reply)), Step(w, Call.Commit(reply));
            if value == w.ledger.tx.autocommit then m == Moved(Success([]), w)
            else if !value then
              && m.answer == Success([]) && m.world.desks == w.desks && !m.world.closed
              && m.world.ledger == Ledger(w.ledger.tx.(autocommit := false), w.ledger.log + [SetMode(false)])
            else if committed.answer.Failure? then m == committed
            else
              && m.answer == Success([]) && m.world.desks == committed.world.desks && !m.world.closed
              && m.world.ledger == Ledger(committed.world.ledger.tx.(autocommit := true),
                                          committed.world.ledger.log + [SetMode(true)])
  {
    hide Committed, TerminalReply, Running;
  }

  /**
   * `close`: a transaction known to be open is rolled back, then the session is logged
   * out, whatever the server says; nothing else is sent. The first failure is raised.
   */
  lemma CloseSays(w: World, reply: TxReply, logout: LogoutReply)
    requires !w.closed && w.ledger.tx.id != Some("")
    ensures var tx, m := w.ledger.tx, Step(w, CloseConnection(reply, logout));
            var logoutAnswer :=
              match logout
              case LogoutFailed(details) => Failure(DatabaseError(details))
              case LogoutReplied(success) => if success then Success([]) else Failure(InternalError);
            && m.world.closed
            && if tx.id.Some? && tx.state in {StateActive, StateRollbackOnly} then
                 && m.world.ledger.log ==
                    LogWithoutRunning(w) + [Action.Rollback(tx.id.value, TerminalReply(reply), true), Logout]
                 && m.answer == if Confirms(reply, tx.id.value, StateRolledBack) then logoutAnswer else AnswerTo(reply)
               else
                 m.world.ledger.log == LogWithoutRunning(w) + [Logout] && m.answer == logoutAnswer
  {
    hide RolledBack, TerminalReply, LogWithoutRunning;
    QuietLedger(w);
    var l := Ledger(w.ledger.tx, LogWithoutRunning(w));
    RolledBackSays(l, reply, true);
    forall sent ensures l.log + [sent] + [Logout] == l.log + [sent, Logout] {}
  }

  /** Closing the connection closes every cursor; what its last result said of itself stays. */
  lemma CloseClosesCursors(w: World, reply: TxReply, logout: LogoutReply, i: nat)
    requires !w.closed && i < |w.desks|
    ensures var d, d' := w.desks[i], Step(w, CloseConnection(reply, logout)).world.desks[i];
            && d'.closed && !d'.shelf.Open?
            && d'.columns == d.columns && d'.rowcount == d.rowcount && d'.report == d.report
  {
    hide TerminalReply, RolledBack, Running;
  }

  /** Closing a cursor cancels its own running execution, and touches nothing else. */
  lemma CloseCursorSays(w: World, i: nat)
    requires i < |w.desks| && !w.desks[i].closed
    ensures var d, m := w.desks[i], Step(w, CloseCursor(i));
            && m.answer == Success([]) && m.world.closed == w.closed && |m.world.desks| == |w.desks|
            && m.world.ledger == Ledger(w.ledger.tx, w.ledger.log + if d.shelf.Open? then [Discard] else [])
            && m.world.desks[i].closed && !m.world.desks[i].shelf.Open?
            && forall k :: 0 <= k < |w.desks| && k != i ==> m.world.desks[k] == w.desks[k]
  {
  }

  /** On a closed connection every call is refused, and closing again does nothing. */
  lemma ClosedConnectionRefuses(w: World, call: Call)
    requires w.closed && SoundCall(w.terms, call) && !call.CloseConnection? && !call.SetArraysize? && !call.CloseCursor?
    requires CursorOf(call).Some? ==> CursorOf(call).value < |w.desks|
    ensures Step(w, call) == Moved(Failure(InterfaceError), w)
  {
    hide ExecuteOn, ExecuteManyOn, Fetching.Fetch;
  }

  /** A closed cursor neither executes nor fetches. */
  lemma ClosedCursorRefuses(w: World, call: Call)
    requires SoundCall(w.terms, call) && (call.Execute? || call.ExecuteMany? || call.Fetch? || call.FetchDefault?)
    requires call.cursor < |w.desks| && w.desks[call.cursor].closed
    ensures Step(w, call) == Moved(Failure(InterfaceError), w)
  {
    hide ExecuteOn, ExecuteManyOn, Fetching.Fetch;
  }

  /** A new cursor has no result, no row count and no report, and fetches one row at a time. */
  lemma NewCursorSays(w: World)
    requires !w.closed
    ensures var m := Step(w, NewCursor);
            && m.answer == Success([]) && m.world.ledger == w.ledger && !m.world.closed
            && m.world.desks == w.desks + [Desk(false, 1, [], NoResult, -1, Report(None, [], 0))]
  {
  }

  /** Only a positive array size is taken, and it is all that changes. */
  lemma SetArraysizeSays(w: World, i: nat, size: int)
    requires i < |w.desks|
    ensures Step(w, SetArraysize(i, size)) ==
            if size <= 0 then Moved(Failure(ProgrammingError), w)
            else Moved(Success([]), w.(desks := w.desks[i := w.desks[i].(arraysize := size)]))
  {
  }

  // ---- fetching ----

  /** How many rows a fetch asks for; `None` asks for all. */
  function Wanted(d: Demand): Option<int> {
    match d
    case FetchOne => Some(1)
    case FetchMany(size) => Some(size)
    case FetchAll => None
  }

  /** `fetchmany` without a size asks for `arraysize` rows. */
  lemma FetchDefaultSays(w: World, i: nat)
    requires i < |w.desks|
    ensures Step(w, FetchDefault(i)) == Step(w, Call.Fetch(i, Demand.FetchMany(w.desks[i].arraysize)))
  {
    hide ExecuteOn, ExecuteManyOn, Fetching.Fetch;
  }

  /** Without rows to look at, a fetch changes nothing and says why, if there is a reason. */
  lemma FetchWithoutRowsSays(w: World, i: nat, d: Demand)
    requires i < |w.desks| && !w.closed && !w.desks[i].closed && !w.desks[i].shelf.Open?
    ensures Step(w, Call.Fetch(i, d)) ==
            Moved(match w.desks[i].shelf
                  case NoResult => Failure(ProgrammingError)
                  case Lost(error) => Failure(error)
                  case _ => if Wanted(d).Some? && Wanted(d).value < 0 then Failure(ProgrammingError) else Success([]),
                  w)
  {
    hide ExecuteOn, ExecuteManyOn;
  }

  /**
   * A fetch hands out the first rows of those still to come, as many as it asks for, and
   * leaves the others. A negative size is refused, and takes nothing.
   */
  lemma FetchTakesTheFirstRows(w: World, i: nat, d: Demand)
    requires i < |w.desks| && !w.closed && !w.desks[i].closed && w.desks[i].shelf.Open?
    requires Wanted(d).Some? && Wanted(d).value <= |w.desks[i].shelf.future.rows|
    ensures var desk, m, n := w.desks[i], Step(w, Call.Fetch(i, d)), Wanted(d).value;
            var f := desk.shelf.future;
            if n < 0 then m == Moved(Failure(ProgrammingError), w)
            else
              && m.answer == Success(f.rows[..n])
              && m.world == w.(desks := w.desks[i := desk.(shelf := desk.shelf.(future := f.(rows := f.rows[n..])))])
  {
    hide ExecuteOn, ExecuteManyOn;
  }

  /** The status an end must report to be accepted in the mode the connection is in. */
  predicate StatusAccepted(tx: Tx, status: Status, executedAs: string) {
    if tx.autocommit then status == Status("", StateNone)
    else status.id == executedAs && status.state in {StateActive, StateRollbackOnly}
  }

  /**
   * A fetch that asks for more rows than are still to come meets the end of the stream: it
   * hands them all out if the end is accepted, and raises what went wrong otherwise. Either
   * way the execution is over, and the log says how.
   */
  lemma FetchToTheEndSays(w: World, i: nat, d: Demand)
    requires i < |w.desks| && !w.closed && !w.desks[i].closed && w.desks[i].shelf.Open?
    requires Wanted(d).Some? ==> Wanted(d).value > |w.desks[i].shelf.future.rows|
    ensures var desk, m, tx := w.desks[i], Step(w, Call.Fetch(i, d)), w.ledger.tx;
            var f, desk' := desk.shelf.future, m.world.desks[i];
            && !m.world.closed && |m.world.desks| == |w.desks|
            && (forall k :: 0 <= k < |w.desks| && k != i ==> m.world.desks[k] == w.desks[k])
            && (desk'.closed, desk'.arraysize, desk'.columns) == (desk.closed, desk.arraysize, desk.columns)
            && desk'.rowcount == (if f.count.Some? then f.count.value else desk.rowcount)
            && match f.tail
               case Concludes(o) =>
                 if StatusAccepted(tx, o.status, desk.shelf.executedAs) then
                   && m.answer == Success(f.rows)
                   && desk'.shelf == Exhausted && desk'.report == Report(Some(o.completeness), o.warnings, o.omitted)
                   && m.world.ledger == Ledger(if tx.autocommit then tx else tx.(state := o.status.state),
                                               w.ledger.log + [Finish(o.status)])
                 else
                   && m.answer == Failure(InternalError)
                   && desk'.shelf == Lost(InternalError) && desk'.report == desk.report
                   && m.world.ledger == Ledger(tx, w.ledger.log + [Fail(InternalError)])
               case Breaks(ProtocolError) =>
                 && m.answer == Failure(InternalError)
                 && desk'.shelf == Lost(InternalError) && desk'.report == desk.report
                 && m.world.ledger == Ledger(tx, w.ledger.log + [Fail(ProtocolError)])
               case Breaks(RpcError(details)) =>
                 && m.answer == Failure(DatabaseError(details))
                 && desk'.shelf == Lost(DatabaseError(details)) && desk'.report == desk.report
                 && m.world.ledger.log == w.ledger.log + [Fail(RpcError(details))]
               case Breaks(_) => m.answer.Failure?
  {
    hide ExecuteOn, ExecuteManyOn, ObserveError;
    LocalFailureKeepsFields(w.ledger.tx);
  }

  lemma LocalFailureKeepsFields(tx: Tx)
    ensures ObserveError(tx, InternalError, false) == tx && ObserveError(tx, ProtocolError, false) == tx
  {
  }

  // ---- executing ----

  /** An execution on an open cursor of an open connection, whose arguments are not refused at once. */
  predicate Tried(w: World, call: Call) {
    && call.Execute? && call.cursor < |w.desks| && !w.closed && !w.desks[call.cursor].closed
    && call.operation != "" && !call.parameters.NotPositional?
  }

  /** The log once this cursor's own running execution, if any, is cancelled. */
  function LogWithout(w: World, i: nat): seq<Action>
    requires i < |w.desks|
  {
    w.ledger.log + if w.desks[i].shelf.Open? then [Discard] else []
  }

  /** The cursor has no result, and nothing is known of an earlier one. */
  predicate Emptied(before: Desk, after: Desk) {
    after == Desk(before.closed, before.arraysize, [], NoResult, -1, Report(None, [], 0))
  }

  /** The execution raised this error unsent: the cursor is emptied and the ledger is this. */
  predicate RaisedUnsent(w: World, call: Call, error: Error, l: Ledger)
    requires Tried(w, call) && SoundCall(w.terms, call)
  {
    var m := Step(w, call);
    && m.answer == Failure(error) && m.world.ledger == l && !m.world.closed
    && Emptied(w.desks[call.cursor], m.world.desks[call.cursor])
  }

  /** SQL that is empty, or parameters that are no sequence, are refused before anything is touched. */
  lemma ExecuteWithBadArguments(w: World, call: Call)
    requires SoundCall(w.terms, call) && call.Execute? && call.cursor < |w.desks|
    requires !w.closed && !w.desks[call.cursor].closed
    requires call.operation == "" || call.parameters.NotPositional?
    ensures Step(w, call) == Moved(Failure(ProgrammingError), w)
  {
    hide Launch;
  }

  /** Only the cursor that executes changes. */
  lemma ExecuteLeavesOtherCursors(w: World, call: Call, k: nat)
    requires SoundCall(w.terms, call) && (call.Execute? || call.ExecuteMany?) && k < |w.desks| && k != call.cursor
    ensures Step(w, call).world.desks[k] == w.desks[k] && Step(w, call).world.closed == w.closed
  {
    hide ExecuteOn, ExecuteManyOn;
  }

  /** No execution in a transaction that is rollback-only, unknown, or had its commit. */
  lemma ExecuteInBlockedTransaction(w: World, call: Call)
    requires SoundCall(w.terms, call) && Tried(w, call)
    requires var tx := w.ledger.tx;
             !tx.autocommit && tx.id.Some? && (tx.commitAttempted || tx.state in {StateUnknown, StateRollbackOnly})
    ensures RaisedUnsent(w, call, OperationalError, Ledger(w.ledger.tx, LogWithout(w, call.cursor)))
  {
    hide LaunchUnder;
  }

  /** Without a transaction one is begun; if that fails, the failure is raised and none is held. */
  lemma ExecuteThatCannotBegin(w: World, call: Call)
    requires SoundCall(w.terms, call) && Tried(w, call) && !w.ledger.tx.autocommit && w.ledger.tx.id.None?
    ensures var tx, log := w.ledger.tx, LogWithout(w, call.cursor);
            if TRANSACTION_IDS !in w.terms.info.features then
              RaisedUnsent(w, call, NotSupportedError, Ledger(tx, log))
            else
              match call.reply.begin
              case BeginFailed(details) =>
                RaisedUnsent(w, call, DatabaseError(details),
                             Ledger(tx, log + [Action.Begin(Failure(RpcError(details)))]))
              case BeginReplied(id) =>
                id == "" ==>
                  RaisedUnsent(w, call, InternalError, Ledger(tx, log + [Action.Begin(Failure(ProtocolError))]))
  {
    hide LaunchUnder;
  }

  /** The execution may go out under `id`, and this is the ledger by then. */
  predicate Ready(w: World, call: Call, id: string, l: Ledger)
    requires Tried(w, call)
  {
    var tx, log := w.ledger.tx, LogWithout(w, call.cursor);
    if tx.autocommit then id == "" && l == Ledger(tx, log)
    else if tx.id.Some? then
      && tx.id == Some(id) && l == Ledger(tx, log)
      && !tx.commitAttempted && tx.state !in {StateUnknown, StateRollbackOnly}
    else
      && TRANSACTION_IDS in w.terms.info.features && call.reply.begin == BeginReplied(id) && id != ""
      && l == Ledger(Tx(false, Some(id), StateActive, false), log + [Action.Begin(Success(id))])
  }

  /** Another cursor's result is still open. */
  predicate Busy(w: World, i: nat) {
    exists k :: 0 <= k < |w.desks| && k != i && w.desks[k].shelf.Open?
  }

  /** What the server agreed to take in a request of the DB-API. */
  ghost predicate Sendable(w: World, call: Call, id: string)
    requires Tried(w, call) && SoundCall(w.terms, call)
  {
    var info := w.terms.info;
    var encoded := EncodeArguments(info.lib, ArgumentsOf(call.parameters));
    && (w.terms.allowPartial ==> PARTIAL_RESULTS in info.features)
    && encoded.Success? && (forall p | p in encoded.value :: ParameterTaken(info, p))
    && (id != "" ==> TRANSACTION_IDS in info.features)
    && w.desks[call.cursor].arraysize <= info.maxRowsPerBatch
    && call.reply.requestBytes <= info.maxRequestBytes && call.reply.requestBytes <= info.maxSendBytes
  }

  lemma ReadyMeansAdmitted(w: World, call: Call, id: string, l: Ledger)
    requires Tried(w, call) && Ready(w, call, id, l)
    ensures AdmitUnder(w.terms.info, Dropped(w.ledger, w.desks[call.cursor].shelf.Open?), call.reply.begin)
            == Admitted(Success(id), l)
  {
  }

  /** The slot is another cursor's: refused, although a transaction may have been begun. */
  lemma ExecuteOnBusyConnection(w: World, call: Call, id: string, l: Ledger)
    requires SoundCall(w.terms, call) && Tried(w, call) && Ready(w, call, id, l) && Busy(w, call.cursor)
    ensures RaisedUnsent(w, call, OperationalError, l)
  {
    hide AdmitUnder, Dropped, Ready, LaunchUnder;
    ReadyMeansAdmitted(w, call, id, l);
  }

  /** A request the server did not agree to take is not sent. */
  lemma ExecuteThatIsNotSendable(w: World, call: Call, id: string, l: Ledger)
    requires SoundCall(w.terms, call) && Tried(w, call) && Ready(w, call, id, l) && !Busy(w, call.cursor)
    requires !Sendable(w, call, id)
    ensures exists error :: RaisedUnsent(w, call, error, l) && error in {DataError, NotSupportedError, InterfaceError}
    ensures var encoded := EncodeArguments(w.terms.info.lib, ArgumentsOf(call.parameters));
            if w.terms.allowPartial && PARTIAL_RESULTS !in w.terms.info.features then
              RaisedUnsent(w, call, NotSupportedError, l)
            else
              encoded.Failure? ==>
                RaisedUnsent(w, call, if encoded.error == CodecError then DataError else InterfaceError, l)
  {
    hide AdmitUnder, Dropped, Ready, EncodeArguments, ParametersRefusal, ParameterTaken, LaunchCall;
    ReadyMeansAdmitted(w, call, id, l);
    var d := w.desks[call.cursor];
    SentExactly(w.terms.info, call.operation, ArgumentsOf(call.parameters), id, d.arraysize,
                AcceptedOutputFeatures(w.terms.info), w.terms.allowPartial, false, call.reply.requestBytes);
    var error := Refusal(w.terms.info, call.operation, ArgumentsOf(call.parameters), id, d.arraysize,
                         AcceptedOutputFeatures(w.terms.info), w.terms.allowPartial, false,
                         call.reply.requestBytes).value;
    assert RaisedUnsent(w, call, Translate(error), l);
  }

  /** A sendable execution is sent, once, under the settled transaction; if the call fails, so does it. */
  lemma ExecuteGoesOut(w: World, call: Call, id: string, l: Ledger)
    requires SoundCall(w.terms, call) && Tried(w, call) && Ready(w, call, id, l) && !Busy(w, call.cursor)
    requires Sendable(w, call, id)
    ensures var m := Step(w, call);
            match call.reply.call
            case CallFailed(details) =>
              && m.answer == Failure(DatabaseError(details))
              && m.world.ledger.log == l.log + [Action.Execute(id), Fail(RpcError(details))]
              && Emptied(w.desks[call.cursor], m.world.desks[call.cursor])
            case CallAccepted(_, _) =>
              if m.world.desks[call.cursor].shelf.Open? then
                m.answer == Success([]) && m.world.ledger == Ledger(l.tx, l.log + [Action.Execute(id)])
              else
                exists a: Action :: (a.Finish? || a.Fail?) && m.world.ledger.log == l.log + [Action.Execute(id), a]
  {
    hide AdmitUnder, Dropped, Ready, EncodeArguments, ParametersRefusal, ParameterTaken, ObserveError, Whole;
    ReadyMeansAdmitted(w, call, id, l);
    var d := w.desks[call.cursor];
    SentExactly(w.terms.info, call.operation, ArgumentsOf(call.parameters), id, d.arraysize,
                AcceptedOutputFeatures(w.terms.info), w.terms.allowPartial, false, call.reply.requestBytes);
    match call.reply.call
    case CallFailed(details) =>
      assert l.log + [Action.Execute(id)] + [Fail(RpcError(details))]
             == l.log + [Action.Execute(id), Fail(RpcError(details))];
    case CallAccepted(responses, ending) =>
      OpeningOnlyAdds(Whole(Reader(w.terms), responses, ending), id, -1, Enter(l, Action.Execute(id)));
      forall a: Action ensures l.log + [Action.Execute(id)] + [a] == l.log + [Action.Execute(id), a] {}
  }

  /** Opening the result adds at most one entry: how the execution ended, if it did. */
  lemma {:induction false} OpeningOnlyAdds(t: Transcript, id: string, rowcount: int, l: Ledger)
    ensures var s := OpenExecution(t, id, rowcount, l).state;
            if s.shelf.Open? then s.ledger == l && OpenExecution(t, id, rowcount, l).failure.None?
            else exists a: Action :: (a.Finish? || a.Fail?) && s.ledger.log == l.log + [a]
    decreases |t.events|
  {
    hide FutureOf, UpdateRowcount, ObserveEnd, Effect;
    var s := OpenExecution(t, id, rowcount, l).state;
    if t.events != [] && t.events[0].Updated? {
      OpeningOnlyAdds(Transcript(t.events[1..], t.verdict), id, UpdateRowcount(t.events[0].counts), l);
    } else if !s.shelf.Open? {
      assert exists a: Action :: (a.Finish? || a.Fail?) && s.ledger == Enter(l, a);
    }
  }

  /** The rows that updates affected, or -1 if one of them does not say. */
  function AffectedRows(counts: seq<WireCount>): int {
    if counts == [] then 0
    else
      var others := AffectedRows(counts[1..]);
      if !counts[0].Affected? || others < 0 then -1 else counts[0].rows + others
  }

  lemma {:induction false} CountsAddUp(counts: seq<WireCount>)
    requires NoCount !in counts
    ensures UpdateRowcount(DecodeCounts(counts)) == AffectedRows(counts)
    ensures AffectedRows(counts) >= -1
  {
    if counts != [] {
      CountsAddUp(counts[1..]);
      var decoded := DecodeCounts(counts);
      assert decoded[1..] == DecodeCounts(counts[1..]);
      assert None in decoded <==> decoded[0].None? || None in decoded[1..];
    }
  }

  /** What is delivered for a stream without rows: the update, if there is one, and the end. */
  lemma RowlessTranscript(cfg: Config, blocks: seq<Block>, end: EndMessage, rs: seq<Response>)
    requires Conforms(cfg, blocks, end, rs) && (blocks == [] || (|blocks| == 1 && blocks[0].UpdateBlock?))
    ensures end.transaction.Some? && DecodeStatus(end.transaction.value).Success?
    ensures blocks != [] ==> CountsOk(blocks[0].counts)
    ensures var o := Outcome(end.resultCount, end.transaction.value, end.completeness, end.warnings, end.omitted);
            Whole(cfg, rs, Clean) ==
            Transcript((if blocks == [] then [] else [Updated(1, DecodeCounts(blocks[0].counts))]) + [Ended(o)],
                       Completed)
  {
    hide Spells, Read, DecodeOutcome, Queried, DecodeStatus, CountsOk;
    ConformingIsDelivered(cfg, blocks, end, rs);
    RowTheorems.OutcomeAcceptance(cfg, end, Queried(blocks));
    if blocks != [] {
      assert blocks[0] in blocks;
      assert blocks[..0] == [];
      assert Events(cfg, blocks) == BlockEvents(cfg, 1, blocks[0]);
    }
  }

  /** Opening a stream without rows ends the execution at once. */
  lemma RowlessOpens(t: Transcript, counts: Option<seq<Option<nat>>>, o: Outcome, id: string, l: Ledger)
    requires t == Transcript((if counts.None? then [] else [Updated(1, counts.value)]) + [Ended(o)], Completed)
    ensures var rowcount := if counts.None? then -1 else UpdateRowcount(counts.value);
            OpenExecution(t, id, -1, l) ==
            match ObserveEnd(l.tx, o.status, id)
            case Success(_) =>
              Launched(None, [], FetchState(NoResult, rowcount, ReportOf(o), Enter(l, Action.Finish(o.status))))
            case Failure(error) => GivenUp(error, rowcount, l)
  {
    hide ObserveEnd, UpdateRowcount, Enter;
    if counts.Some? {
      assert t.events[1..] == [Ended(o)];
      var rest := Transcript([Ended(o)], Completed);
      assert OpenExecution(t, id, -1, l) == OpenExecution(rest, id, UpdateRowcount(counts.value), l);
    }
  }

  /**
   * An execution answered by a conforming update, or by no result, is over when it
   * returns: with the rows affected and the server's report, if the end has the status
   * the mode and the transaction call for, and with an error otherwise.
   */
  lemma ConformingUpdateReachesTheCaller(
    w: World, call: Call, id: string, l: Ledger, blocks: seq<Block>, end: EndMessage, rs: seq<Response>)
    requires SoundCall(w.terms, call) && Tried(w, call) && Ready(w, call, id, l) && !Busy(w, call.cursor)
    requires Sendable(w, call, id) && call.reply.call == CallAccepted(rs, Clean)
    requires Conforms(Reader(w.terms), blocks, end, rs)
    requires blocks == [] || (|blocks| == 1 && blocks[0].UpdateBlock?)
    ensures end.transaction.Some?
    ensures var m, d, status := Step(w, call), w.desks[call.cursor], end.transaction.value;
            var rowcount := if blocks == [] then -1 else AffectedRows(blocks[0].counts);
            if StatusAccepted(l.tx, status, id) then
              && m.answer == Success([])
              && m.world.ledger == Ledger(if l.tx.autocommit then l.tx else l.tx.(state := status.state),
                                          l.log + [Action.Execute(id), Finish(status)])
              && m.world.desks[call.cursor] == Desk(false, d.arraysize, [], NoResult, rowcount,
                                                    Report(Some(end.completeness), end.warnings, end.omitted))
            else
              && m.answer == Failure(InternalError)
              && m.world.ledger == Ledger(l.tx, l.log + [Action.Execute(id), Fail(InternalError)])
              && m.world.desks[call.cursor] == Desk(false, d.arraysize, [], NoResult, rowcount, Report(None, [], 0))
  {
    hide AdmitUnder, Dropped, Ready, EncodeArguments, ParametersRefusal, ParameterTaken, ObserveError, Whole, Conforms,
         OpenExecution, Sendable, Reader, AffectedRows;
    ReadyMeansAdmitted(w, call, id, l);
    SendableIsSent(w, call, id);
    RowlessTranscript(Reader(w.terms), blocks, end, rs);
    var counts := if blocks == [] then None else Some(DecodeCounts(blocks[0].counts));
    var o := Outcome(end.resultCount, end.transaction.value, end.completeness, end.warnings, end.omitted);
    RowlessOpens(Whole(Reader(w.terms), rs, Clean), counts, o, id, Enter(l, Action.Execute(id)));
    if blocks != [] {
      CountsAddUp(blocks[0].counts);
    }
    LocalFailureKeepsFields(l.tx);
    forall a: Action ensures l.log + [Action.Execute(id)] + [a] == l.log + [Action.Execute(id), a] {}
  }

  lemma SendableIsSent(w: World, call: Call, id: string)
    requires SoundCall(w.terms, call) && Tried(w, call) && Sendable(w, call, id)
    ensures Refusal(w.terms.info, call.operation, ArgumentsOf(call.parameters), id, w.desks[call.cursor].arraysize,
                    AcceptedOutputFeatures(w.terms.info), w.terms.allowPartial, false, call.reply.requestBytes).None?
  {
    hide EncodeArguments, ParametersRefusal, ParameterTaken;
    SentExactly(w.terms.info, call.operation, ArgumentsOf(call.parameters), id, w.desks[call.cursor].arraysize,
                AcceptedOutputFeatures(w.terms.info), w.terms.allowPartial, false, call.reply.requestBytes);
  }

  // ---- executing many ----

  /** `executemany` of nothing empties the cursor and counts no row; of no iterable, it is refused. */
  lemma ExecuteManyOfNothing(w: World, i: nat, operation: string)
    requires i < |w.desks| && !w.closed && !w.desks[i].closed
    ensures Step(w, ExecuteMany(i, operation, None)) == Moved(Failure(ProgrammingError), w)
    ensures var d, m := w.desks[i], Step(w, ExecuteMany(i, operation, Some([])));
            && m.answer == Success([]) && !m.world.closed
            && m.world.ledger == Ledger(w.ledger.tx, LogWithout(w, i))
            && m.world.desks == w.desks[i := Desk(d.closed, d.arraysize, [], NoResult, 0, Report(None, [], 0))]
  {
  }

  /** One parameter sequence is one `execute`, except that a result set is given up and refused. */
  lemma ExecuteManyOfOne(w: World, i: nat, operation: string, b: Batch)
    requires i < |w.desks| && !w.closed && !w.desks[i].closed && SoundParameters(w.terms, b.parameters)
    ensures var e := Step(w, Call.Execute(i, operation, b.parameters, b.reply));
            var m, d := Step(w, ExecuteMany(i, operation, Some([b]))), e.world.desks[i];
            if e.answer.Failure? then m == e
            else if d.shelf.Open? then
              && m.answer == Failure(NotSupportedError)
              && m.world == e.world.(desks := e.world.desks[i := d.(shelf := Exhausted)],
                                     ledger := Ledger(e.world.ledger.tx, e.world.ledger.log + [Discard]))
            else m == e
  {
    hide ExecuteOn;
    EachOfOne(w.terms, w.desks[i], w.ledger, SlotTaken(w, i), operation, b);
  }

  lemma EachOfOne(terms: Terms, d: Desk, l: Ledger, slotTaken: bool, operation: string, b: Batch)
    requires SoundParameters(terms, b.parameters)
    ensures ExecuteEach(terms, d, l, slotTaken, operation, [b], 0)
            == ExecuteForCount(terms, d, l, slotTaken, operation, b)
  {
    hide ExecuteForCount;
    CountsAreKnownOrNot(terms, d, l, slotTaken, operation, b);
    var o := ExecuteForCount(terms, d, l, slotTaken, operation, b);
    assert [b][0] == b && [b][1..] == [];
    if o.failure.None? {
      assert ExecuteEach(terms, o.desk, o.ledger, slotTaken, operation, [], o.desk.rowcount)
             == Aftermath(None, o.desk, o.ledger);
    }
  }

  /**
   * More parameter sequences are executed one after the other, as if by `executemany` each:
   * the first that fails decides, and otherwise the counts are added, unless one is unknown.
   */
  lemma ExecuteManyOfMore(w: World, i: nat, operation: string, b: Batch, rest: seq<Batch>)
    requires i < |w.desks| && !w.closed && !w.desks[i].closed && rest != []
    requires SoundBatches(w.terms, [b]) && SoundBatches(w.terms, rest) && SoundBatches(w.terms, [b] + rest)
    ensures var first := Step(w, ExecuteMany(i, operation, Some([b])));
            var both := Step(w, ExecuteMany(i, operation, Some([b] + rest)));
            if first.answer.Failure? then both == first
            else
              var second := Step(first.world, ExecuteMany(i, operation, Some(rest)));
              if second.answer.Failure? then both == second
              else
                var m, n := first.world.desks[i].rowcount, second.world.desks[i].rowcount;
                && both.answer == Success([])
                && both.world == second.world.(desks := second.world.desks[i := second.world.desks[i].(
                                                 rowcount := if m < 0 || n < 0 then -1 else m + n)])
  {
    hide ExecuteForCount, SlotTaken, FetchStep, CommitStep, RollbackStep, SwitchStep, CloseStep, CloseCursorStep,
         ExecuteStep, SoundParameters;
    EachOfOne(w.terms, w.desks[i], w.ledger, SlotTaken(w, i), operation, b);
    var first := Step(w, ExecuteMany(i, operation, Some([b])));
    var o := ExecuteForCount(w.terms, w.desks[i], w.ledger, SlotTaken(w, i), operation, b);
    assert ([b] + rest)[1..] == rest;
    if o.failure.None? {
      CountsAreKnownOrNot(w.terms, w.desks[i], w.ledger, SlotTaken(w, i), operation, b);
      assert first.world == Placed(w, i, o.desk, o.ledger);
      SlotAside(w, i, o.desk, o.ledger);
      StaysOpen(w.terms, w.desks[i], w.ledger, SlotTaken(w, i), operation, b);
      TotalsAside(w.terms, o.desk, o.ledger, SlotTaken(w, i), operation, rest, o.desk.rowcount);
    }
  }

  lemma SlotAside(w: World, i: nat, d: Desk, l: Ledger)
    requires i < |w.desks|
    ensures SlotTaken(Placed(w, i, d, l), i) <==> SlotTaken(w, i)
  {
    var w' := Placed(w, i, d, l);
    assert forall k :: 0 <= k < |w.desks| && k != i ==> w'.desks[k] == w.desks[k];
  }

  lemma {:induction false} OpenedCount(t: Transcript, id: string, rowcount: int, l: Ledger)
    requires rowcount >= -1
    ensures OpenExecution(t, id, rowcount, l).state.rowcount >= -1
    decreases |t.events|
  {
    hide FutureOf, ObserveEnd, Enter;
    if t.events != [] && t.events[0].Updated? {
      OpenedCount(Transcript(t.events[1..], t.verdict), id, UpdateRowcount(t.events[0].counts), l);
    }
  }

  lemma CountIsKnownOrNot(
    terms: Terms, d: Desk, l: Ledger, slotTaken: bool, operation: string, p: Parameters, reply: ExecuteReply)
    requires SoundParameters(terms, p)
    ensures var o := ExecuteOn(terms, d, l, slotTaken, operation, p, reply);
            o.failure.None? ==> o.desk.rowcount >= -1
  {
    hide AdmitUnder, Refusal, Reader, Dropped, OpenExecution, Whole, Enter;
    if reply.call.CallAccepted? {
      forall id, l ensures OpenExecution(Whole(Reader(terms), reply.call.responses, reply.call.ending), id, -1, l)
                           .state.rowcount >= -1
      {
        OpenedCount(Whole(Reader(terms), reply.call.responses, reply.call.ending), id, -1, l);
      }
    }
  }

  lemma CountsAreKnownOrNot(terms: Terms, d: Desk, l: Ledger, slotTaken: bool, operation: string, b: Batch)
    requires SoundParameters(terms, b.parameters)
    ensures var o := ExecuteForCount(terms, d, l, slotTaken, operation, b);
            o.failure.None? ==> o.desk.rowcount >= -1
  {
    hide ExecuteOn;
    CountIsKnownOrNot(terms, d, l, slotTaken, operation, b.parameters, b.reply);
  }

  lemma StaysOpen(terms: Terms, d: Desk, l: Ledger, slotTaken: bool, operation: string, b: Batch)
    requires SoundParameters(terms, b.parameters)
    ensures ExecuteForCount(terms, d, l, slotTaken, operation, b).desk.closed == d.closed
  {
    hide Launch;
  }

  /** What was counted before matters for the count only. */
  lemma {:induction false} TotalsAside(
    terms: Terms, d: Desk, l: Ledger, slotTaken: bool, operation: string, batches: seq<Batch>, total: int)
    requires SoundBatches(terms, batches) && total >= -1
    ensures var a := ExecuteEach(terms, d, l, slotTaken, operation, batches, total);
            var b := ExecuteEach(terms, d, l, slotTaken, operation, batches, 0);
            if b.failure.Some? then a == b
            else
              && a == b.(desk := b.desk.(rowcount := if total < 0 || b.desk.rowcount < 0 then -1
                                                     else total + b.desk.rowcount))
              && b.desk.rowcount >= -1
    decreases |batches|
  {
    hide ExecuteForCount;
    if batches != [] {
      assert batches[0] in batches;
      var o := ExecuteForCount(terms, d, l, slotTaken, operation, batches[0]);
      if o.failure.None? {
        TotalsAside(terms, o.desk, o.ledger, slotTaken, operation, batches[1..], Plus(total, o.desk.rowcount));
        TotalsAside(terms, o.desk, o.ledger, slotTaken, operation, batches[1..], Plus(0, o.desk.rowcount));
      }
    }
  }
}
