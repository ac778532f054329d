/** The DB-API connection and its cursors, over one session. */
module DbApi {
  import opened Wrappers
  import opened Errors
  import opened Codec
  import opened Protocol
  import opened Grammar
  import opened Transcripts
  import opened ExecutionStreams
  import opened Requests
  import opened CursorStreams
  import opened Executions
  import F = Fetching
  import T = Transactions

  lemma LogStep(mode: bool, log: seq<T.Action>, a: T.Action)
    requires T.Legal(mode, log) && T.Allowed(T.Run(T.Start(mode), log).value, a)
    ensures T.Legal(mode, log + [a])
    ensures T.Run(T.Start(mode), log + [a]) == Some(T.After(T.Run(T.Start(mode), log).value, a))
  {
    assert (log + [a])[..|log|] == log;
  }

  class Connection {
    const terms: Terms
    var autocommit: bool
    var closed: bool
    var cursors: set<Cursor>
    var active: Cursor?
    var transactionId: Option<string>
    var transactionState: TxState
    var commitAttempted: bool
    ghost const firstMode: bool
    ghost var log: seq<T.Action>
    ghost var running: Option<string>

    function Tx(): T.Tx
      reads `autocommit, `transactionId, `transactionState, `commitAttempted
    {
      T.Tx(autocommit, transactionId, transactionState, commitAttempted)
    }

    ghost function Ledger(): T.Ledger
      reads `autocommit, `transactionId, `transactionState, `commitAttempted, `log
    {
      T.Ledger(Tx(), log)
    }

    /** The fields are the state that the log of calls and observations leads to. */
    ghost predicate Machine()
      reads `autocommit, `transactionId, `transactionState, `commitAttempted, `log, `running, `closed
    {
      && T.Legal(firstMode, log)
      && T.Run(T.Start(firstMode), log).value == T.Session(Tx(), running, closed)
    }

    ghost function Streams(): set<ExecutionStream>
      reads this, cursors
    {
      set c | c in cursors && c.stream != null :: c.stream
    }

    /** What holds between any two operations on the connection or its cursors. */
    ghost predicate Valid()
      reads this, cursors, Streams()
    {
      && Machine()
      && (closed ==> cursors == {})
      && (active == null ==> running.None?)
      && (active != null ==> active in cursors)
      && forall c | c in cursors :: c.connection == this && !c.closed && c.Settled()
    }

    method ClearTransaction()
      modifies `transactionId, `transactionState, `commitAttempted
      ensures Tx() == T.Cleared(old(Tx()))
    {
      transactionId := None;
      transactionState := StateNone;
      commitAttempted := false;
    }

    /** Accepts or refuses the status an execution ends with; the log takes an accepted one. */
    method ObserveExecutionEnd(status: Status, expectedId: string) returns (r: Option<Error>)
      requires Machine() && !closed && running == Some(expectedId) && DecodeStatus(status).Success?
      modifies `transactionState, `log, `running
      ensures Machine()
      ensures match T.ObserveEnd(old(Tx()), status, expectedId)
              case Success(_) =>
                r.None? && Ledger() == T.Enter(old(Ledger()), T.Finish(status)) && running.None?
              case Failure(error) => r == Some(error) && unchanged(this)
    {
      hide T.Run, DecodeStatus;
      if autocommit {
        if status.state != StateNone || status.id != "" {
          return Some(InternalError);
        }
      } else if status.id != expectedId || status.state !in {StateActive, StateRollbackOnly} {
        return Some(InternalError);
      }
      LogStep(firstMode, log, T.Finish(status));
      log := log + [T.Finish(status)];
      running := None;
      if !autocommit {
        transactionState := status.state;
      }
      r := None;
    }

    method ObserveError(error: Error, transactionOperation: bool)
      modifies `transactionId, `transactionState, `commitAttempted
      ensures Tx() == T.ObserveError(old(Tx()), error, transactionOperation)
    {
      if !error.RpcError? || transactionId.None? {
        if transactionOperation && transactionId.Some? {
          transactionState := StateUnknown;
        }
        return;
      }
      var details := error.details;
      if details.transactionId != transactionId {
        if transactionOperation || details.sqlExecuted != Some(false) {
          transactionState := StateUnknown;
        }
        return;
      }
      if details.transactionState.None? {
        if transactionOperation || details.sqlExecuted != Some(false) {
          transactionState := StateUnknown;
        }
        return;
      }
      transactionState := details.transactionState.value;
      if details.transactionState.value in {StateCommitted, StateRolledBack} {
        ClearTransaction();
      }
    }

    /** A cursor's execution has failed: the log takes it if it was sent, and the error is observed. */
    method ObserveFailure(error: Error)
      requires Machine() && !closed && (running.None? ==> !error.RpcError?)
      modifies `transactionId, `transactionState, `commitAttempted, `log, `running
      ensures Machine() && running.None?
      ensures Ledger() == if old(running).None? then old(Ledger()) else T.Enter(old(Ledger()), T.Fail(error))
    {
      hide T.Run, T.ObserveError;
      LocalErrorChangesNothing(Tx(), error);
      if running.Some? {
        LogStep(firstMode, log, T.Fail(error));
        log := log + [T.Fail(error)];
        running := None;
      }
      ObserveError(error, false);
    }

    /** The log takes an execution that is being sent. */
    ghost method RecordExecution(id: string)
      requires Machine() && !closed && running.None? && T.Admit(Tx()) == T.UseId(id)
      modifies `log, `running
      ensures Machine() && running == Some(id) && Ledger() == T.Enter(old(Ledger()), T.Execute(id))
    {
      hide T.Run, T.Admit;
      LogStep(firstMode, log, T.Execute(id));
      log := log + [T.Execute(id)];
      running := Some(id);
    }

    /** The log takes the end of an execution that is cancelled. */
    ghost method RecordDiscard()
      requires Machine() && !closed && running.Some?
      modifies `log, `running
      ensures Machine() && running.None? && Ledger() == Dropped(old(Ledger()), true)
    {
      hide T.Run;
      LogStep(firstMode, log, T.Discard);
      log := log + [T.Discard];
      running := None;
    }

    /** The transaction to execute under, begun now if none is held and one is needed. */
    method TransactionForExecute(begin: BeginReply) returns (r: Result<string, Error>)
      requires Machine()
      modifies `transactionId, `transactionState, `commitAttempted, `log
      ensures Machine()
      ensures closed ==> r == Failure(InterfaceError) && unchanged(this)
      ensures !closed ==>
                var a := AdmitUnder(terms.info, old(Ledger()), begin);
                r == a.id && Ledger() == a.ledger
      ensures r.Success? ==> !closed && T.Admit(Tx()) == T.UseId(r.value)
    {
      if closed {
        return Failure(InterfaceError);
      }
      if autocommit {
        return Success("");
      }
      if transactionId.None? {
        if TRANSACTION_IDS !in terms.info.features {
          return Failure(Translate(CapabilityError));
        }
        LogStep(firstMode, log, T.Begin(BegunId(begin)));
        log := log + [T.Begin(BegunId(begin))];
        var begun := BegunId(begin);
        if begun.Failure? {
          return Failure(Translate(begun.error));
        }
        transactionId := Some(begun.value);
        transactionState := StateActive;
        commitAttempted := false;
      } else if commitAttempted || transactionState == StateUnknown {
        return Failure(OperationalError);
      } else if transactionState == StateRollbackOnly {
        return Failure(OperationalError);
      }
      r := Success(transactionId.value);
    }

    method ClaimExecution(cursor: Cursor) returns (r: Option<Error>)
      requires !closed
      modifies `active
      ensures if old(active) != null && old(active) != cursor then r == Some(OperationalError) && active == old(active)
              else r.None? && active == cursor
    {
      if active != null && active != cursor {
        return Some(OperationalError);
      }
      active := cursor;
      r := None;
    }

    method RemoveCursor(cursor: Cursor)
      modifies `active, `cursors
      ensures active == (if old(active) == cursor then null else old(active)) && cursors == old(cursors) - {cursor}
    {
      ReleaseExecution(cursor);
      cursors := cursors - {cursor};
    }

    method ReleaseExecution(cursor: Cursor)
      modifies `active
      ensures active == if old(active) == cursor then null else old(active)
    {
      if active == cursor {
        active := null;
      }
    }

    constructor (terms: Terms, autocommit: bool)
      ensures Valid() && !closed && cursors == {} && this.terms == terms && firstMode == autocommit
      ensures Ledger() == T.Ledger(T.Start(autocommit).tx, [])
    {
      this.terms := terms;
      this.autocommit := autocommit;
      firstMode := autocommit;
      closed := false;
      cursors := {};
      active := null;
      transactionId := None;
      transactionState := StateNone;
      commitAttempted := false;
      log := [];
      running := None;
    }

    method NewCursor() returns (r: Result<Cursor, Error>)
      requires Valid()
      modifies `cursors
      ensures Valid()
      ensures closed ==> r == Failure(InterfaceError) && unchanged(this)
      ensures !closed ==>
                && r.Success? && fresh(r.value) && r.value.connection == this
                && cursors == old(cursors) + {r.value} && r.value.Idle() && r.value.Desk() == FRESH_DESK
    {
      hide T.Run, T.Legal, QueryTail, WellEnded, ParseOk;
      if closed {
        return Failure(InterfaceError);
      }
      var cursor := new Cursor(this);
      cursors := cursors + {cursor};
      r := Success(cursor);
    }

    // ---- ending transactions ----

    /** The stream of the active cursor, as a set. */
    ghost function ActiveStream(): set<ExecutionStream>
      reads this, active
    {
      if active == null || active.stream == null then {} else {active.stream}
    }

    /** No cursor of this connection holds a stream, nor a row it could still hand out. */
    ghost predicate Quiet()
      reads this, cursors
    {
      active == null && forall c | c in cursors :: c.Idle()
    }

    method DiscardActiveResult()
      requires Valid() && !closed
      modifies `active, `log, `running, active, ActiveStream()
      ensures Valid() && Quiet() && running.None?
      ensures Ledger() == Dropped(old(Ledger()), old(active) != null)
      ensures old(active) != null ==>
                old(active).Desk() == Reset(old(active.Desk())) && old(active.stream).cancelled
    {
      hide T.Run, T.Legal, QueryTail, WellEnded, ParseOk, F.FutureOf;
      if active != null {
        active.DiscardByConnection();
      }
    }

    method ValidateTerminalStatus(status: Status, expectedId: string, expectedState: TxState) returns (r: Option<Error>)
      modifies `transactionState
      ensures if status == Status(expectedId, expectedState) then r.None? && Tx() == old(Tx())
              else r == Some(InternalError) && Tx() == old(Tx()).(state := status.state)
    {
      if status.id != expectedId || status.state != expectedState {
        transactionState := status.state;
        return Some(InternalError);
      }
      r := None;
    }

    /**
     * `commit`: nothing without a transaction, an error without a call when the
     * transaction is rollback-only or already had its commit, and one call otherwise.
     */
    method Commit(reply: TxReply) returns (r: Option<Error>)
      requires Valid()
      modifies `active, `log, `running, `transactionId, `transactionState, `commitAttempted, active, ActiveStream()
      ensures Valid()
      ensures closed ==> r == Some(InterfaceError) && unchanged(this) && active == null
      ensures !closed ==>
                && Quiet() && running.None?
                && (r, Ledger()) == Committed(Dropped(old(Ledger()), old(active) != null), TerminalReply(reply))
                && (old(active) != null ==> old(active).Desk() == Reset(old(active.Desk())))
      ensures !closed && r.None? ==> transactionId.None?
    {
      hide T.Run, T.Legal, QueryTail, WellEnded, ParseOk, DecodeStatus, Translate, T.Effect, F.FutureOf;
      if closed {
        return Some(InterfaceError);
      }
      DiscardActiveResult();
      if transactionId.None? {
        return None;
      }
      if transactionState == StateRollbackOnly {
        return Some(OperationalError);
      }
      if commitAttempted {
        return Some(OperationalError);
      }
      r := SendCommit(transactionId.value, TerminalReply(reply));
    }

    /** The call of `commit` and what is made of its reply. */
    method SendCommit(id: string, reply: Result<Status, Error>) returns (r: Option<Error>)
      requires Machine() && !closed && running.None?
      requires transactionId == Some(id) && transactionState != StateRollbackOnly && !commitAttempted
      modifies `log, `transactionId, `transactionState, `commitAttempted
      ensures Machine() && Ledger() == T.Enter(old(Ledger()), T.Commit(id, reply))
      ensures r == CallError(reply, Status(id, StateCommitted))
      ensures r.None? ==> transactionId.None?
    {
      hide T.Run, T.ObserveError, Translate;
      LogStep(firstMode, log, T.Commit(id, reply));
      log := log + [T.Commit(id, reply)];
      commitAttempted := true;
      match reply
      case Failure(error) =>
        ObserveError(error, true);
        r := Some(Translate(error));
      case Success(status) =>
        r := ValidateTerminalStatus(status, id, StateCommitted);
        if r.None? {
          ClearTransaction();
        }
    }

    /** `rollback`: sent whenever a transaction is held, whatever its recorded state. */
    method Rollback(reply: TxReply) returns (r: Option<Error>)
      requires Valid()
      modifies `active, `log, `running, `transactionId, `transactionState, `commitAttempted, active, ActiveStream()
      ensures Valid()
      ensures closed ==> r == Some(InterfaceError) && unchanged(this) && active == null
      ensures !closed ==>
                && Quiet()
                && (r, Ledger()) == RolledBack(Dropped(old(Ledger()), old(active) != null), TerminalReply(reply), false)
                && (old(active) != null ==> old(active).Desk() == Reset(old(active.Desk())))
      ensures !closed && r.None? ==> transactionId.None?
    {
      hide T.Run, T.Legal, QueryTail, WellEnded, ParseOk, DecodeStatus, Translate, T.Effect, F.FutureOf;
      if closed {
        return Some(InterfaceError);
      }
      DiscardActiveResult();
      if transactionId.None? {
        return None;
      }
      r := SendRollback(transactionId.value, TerminalReply(reply), false);
    }

    /** The rollback call; while closing, an error reply is not observed. */
    method SendRollback(id: string, reply: Result<Status, Error>, closing: bool) returns (r: Option<Error>)
      requires Machine() && !closed && running.None? && transactionId == Some(id)
      requires closing ==> transactionState in {StateActive, StateRollbackOnly}
      modifies `log, `transactionId, `transactionState, `commitAttempted
      ensures Machine() && Ledger() == T.Enter(old(Ledger()), T.Rollback(id, reply, closing))
      ensures r == CallError(reply, Status(id, StateRolledBack))
      ensures r.None? ==> transactionId.None?
    {
      hide T.Run, T.ObserveError, Translate;
      LogStep(firstMode, log, T.Rollback(id, reply, closing));
      log := log + [T.Rollback(id, reply, closing)];
      match reply
      case Failure(error) =>
        if !closing {
          ObserveError(error, true);
        }
        r := Some(Translate(error));
      case Success(status) =>
        r := ValidateTerminalStatus(status, id, StateRolledBack);
        if r.None? {
          ClearTransaction();
        }
    }

    /**
     * Switching to autocommit commits first, and switches only if that succeeded; switching
     * it off changes only the mode, and leaves a running execution running.
     */
    method SetAutocommit(value: bool, reply: TxReply) returns (r: Option<Error>)
      requires Valid()
      modifies this, active, ActiveStream()
      ensures Valid() && closed == old(closed) && cursors == old(cursors)
      ensures closed ==> r == Some(InterfaceError) && unchanged(this) && active == null
      ensures !closed && value == old(autocommit) ==>
                r.None? && unchanged(this) && (active != null ==> unchanged(active) && unchanged(active.stream))
      ensures !closed && value && !old(autocommit) ==>
                && Quiet()
                && (var (failure, ledger) :=
                      Committed(Dropped(old(Ledger()), old(active) != null), TerminalReply(reply));
                    r == failure && Ledger() == if r.Some? then ledger else T.Enter(ledger, T.SetMode(true)))
                && (old(active) != null ==> old(active).Desk() == Reset(old(active.Desk())))
      ensures !closed && !value && old(autocommit) ==>
                && r.None? && Ledger() == T.Enter(old(Ledger()), T.SetMode(false))
                && active == old(active) && (active != null ==> unchanged(active) && unchanged(active.stream))
    {
      hide T.Run, T.Legal, QueryTail, WellEnded, ParseOk, F.FutureOf, Committed, TerminalReply;
      if closed {
        return Some(InterfaceError);
      }
      if value == autocommit {
        return None;
      }
      if value {
        r := Commit(reply);
        if r.Some? {
          return;
        }
      }
      SwitchMode(value);
      r := None;
    }

    method SwitchMode(value: bool)
      requires Machine() && !closed && autocommit != value && (value ==> transactionId.None? && running.None?)
      modifies `autocommit, `log
      ensures Machine() && Ledger() == T.Enter(old(Ledger()), T.SetMode(value))
    {
      hide T.Run;
      LogStep(firstMode, log, T.SetMode(value));
      log := log + [T.SetMode(value)];
      autocommit := value;
    }

    // ---- closing ----

    /** Closes every cursor; the one that was active has its execution cancelled. */
    method CloseCursors()
      requires Valid() && !closed
      modifies `active, `log, `running, cursors, ActiveStream()
      ensures Machine() && active == null && running.None?
      ensures Ledger() == Dropped(old(Ledger()), old(active) != null)
      ensures forall c | c in cursors :: c.closed && c.Idle() && c.Desk() == Cut(old(c.Desk())).(closed := true)
    {
      hide Machine, T.Enter, Cursor.Holding, Cursor.Busy, Cursor.Shelf;
      ghost var first, streams := active, ActiveStream();
      var todo := cursors;
      while todo != {}
        invariant todo <= cursors && Machine()
        invariant Tx() == old(Tx()) && !closed
        invariant active == first || active == null
        invariant active == null ==> running.None? && Ledger() == Dropped(old(Ledger()), first != null)
        invariant active != null ==> active in todo && unchanged(`log, `running, `active) && unchanged(streams)
        invariant forall c | c in todo :: c.connection == this && unchanged(c) && (c == active || c.Idle())
        invariant active != null ==> active.Settled()
        invariant forall c | c in cursors - todo ::
                    c.closed && c.Idle() && c.Desk() == Cut(old(c.Desk())).(closed := true)
        decreases todo
      {
        var cursor :| cursor in todo;
        assert !cursor.closed;
        cursor.CloseFromConnection();
        todo := todo - {cursor};
      }
    }

    /**
     * `close`: cursors first, then a rollback if a transaction is known to be open, then
     * the logout, whatever came before; the first error is raised at the end.
     */
    method Close(rollback: TxReply, logout: LogoutReply) returns (r: Option<Error>)
      requires Valid()
      modifies this, cursors, ActiveStream()
      ensures Valid() && closed
      ensures old(closed) ==> r.None? && unchanged(this) && cursors == {}
      ensures !old(closed) ==>
                && (forall c | c in old(cursors) ::
                      c.closed && c.Idle() && c.Desk() == Cut(old(c.Desk())).(closed := true))
                && var (failure, ledger) :=
                     RolledBack(Dropped(old(Ledger()), old(active) != null), TerminalReply(rollback), true);
                   && Ledger() == T.Enter(ledger, T.Logout)
                   && r == if failure.Some? then failure else LogoutError(logout)
    {
      hide T.Run, T.Legal, QueryTail, WellEnded, ParseOk, F.FutureOf, DecodeStatus, Translate, TerminalReply, Cut;
      if closed {
        return None;
      }
      CloseCursors();
      r := EndSession(TerminalReply(rollback), logout);
      active := null;
      cursors := {};
    }

    /** The rollback, if one is due, and the logout. */
    method EndSession(rollback: Result<Status, Error>, logout: LogoutReply) returns (r: Option<Error>)
      requires Machine() && !closed && running.None?
      modifies `log, `transactionId, `transactionState, `commitAttempted, `closed
      ensures Machine() && closed
      ensures var (failure, ledger) := RolledBack(old(Ledger()), rollback, true);
              && Ledger() == T.Enter(ledger, T.Logout)
              && r == if failure.Some? then failure else LogoutError(logout)
    {
      hide T.Run, Translate;
      r := None;
      if transactionId.Some? && transactionState in {StateActive, StateRollbackOnly} {
        r := SendRollback(transactionId.value, rollback, true);
      }
      if r.None? {
        r := LogoutError(logout);
      }
      LogStep(firstMode, log, T.Logout);
      log := log + [T.Logout];
      closed := true;
    }
  }

  class Cursor {
    const connection: Connection
    var closed: bool
    var stream: ExecutionStream?
    var rows: seq<Row>
    var columns: seq<Column>
    var rowcount: int
    var resultSet: bool
    var resultComplete: bool
    var failure: Option<Error>
    var arraysize: nat
    var transactionId: string
    var completeness: Option<Completeness>
    var warnings: seq<Warning>
    var omitted: nat

    ghost predicate Idle()
      reads `stream, `resultComplete, `failure, `rows
    {
      stream == null && resultComplete && (failure.None? ==> rows == [])
    }

    /** A live stream is held, and what is left of it has the shape of one result's rest. */
    ghost predicate Holding()
      reads `stream, `resultComplete, `failure, stream
    {
      && stream != null && stream.Valid() && stream.Live()
      && !resultComplete && failure.None?
      && WellEnded(stream.Ahead())
    }

    ghost predicate Busy()
      reads `stream, `resultComplete, `failure, `resultSet, stream
    {
      Holding() && resultSet && QueryTail(stream.Ahead().events)
    }

    /** The cursor is the active one exactly when it holds a stream; a stream is never kept otherwise. */
    ghost predicate Settled()
      reads this, connection, stream
    {
      && arraysize > 0
      && if connection.active == this then Busy() && connection.running == Some(transactionId) else Idle()
    }

    ghost predicate Known()
      reads this, connection, connection.cursors, connection.Streams(), stream
    {
      && connection.Valid()
      && (this in connection.cursors <==> !closed)
      && (closed ==> Idle())
    }

    constructor (connection: Connection)
      ensures this.connection == connection
      ensures Idle() && Desk() == FRESH_DESK && transactionId == ""
    {
      this.connection := connection;
      closed := false;
      stream := null;
      rows := [];
      columns := [];
      rowcount := -1;
      resultSet := false;
      resultComplete := true;
      failure := None;
      arraysize := 1;
      transactionId := "";
      completeness := None;
      warnings := [];
      omitted := 0;
    }

    // ---- the logical cursor behind the fields ----

    /** Buffered rows first, then what the stream still brings. */
    ghost function Pending(): F.Future
      requires Holding()
      reads `stream, `rows, `resultComplete, `failure, stream
    {
      var f := F.FutureOf(stream.Ahead());
      f.(rows := rows + f.rows)
    }

    /** What a fetch finds; between operations an incomplete result always holds a live stream. */
    ghost function Shelf(): F.Shelf
      reads `stream, `rows, `resultComplete, `failure, `resultSet, `transactionId, stream
    {
      if !resultSet then F.NoResult
      else if failure.Some? then F.Lost(failure.value)
      else if resultComplete || !Holding() then F.Exhausted
      else F.Open(Pending(), transactionId)
    }

    function Report(): F.Report
      reads `completeness, `warnings, `omitted
    {
      F.Report(completeness, warnings, omitted)
    }

    ghost function State(): F.FetchState
      reads this, connection, stream
    {
      F.FetchState(Shelf(), rowcount, Report(), connection.Ledger())
    }

    ghost function Desk(): Desk
      reads this, stream
    {
      Executions.Desk(closed, arraysize, columns, Shelf(), rowcount, Report())
    }

    /** The running execution is this cursor's, and the connection is open. */
    ghost predicate Running()
      reads this, connection
    {
      && connection.Machine() && !connection.closed
      && connection.active == this && connection.running == Some(transactionId)
    }

    ghost predicate Released()
      reads connection
    {
      connection.Machine() && !connection.closed && connection.active == null && connection.running.None?
    }

    /** Only the slot, the ledger and what is running were touched on the connection. */
    twostate predicate KeptConnection()
      reads connection
    {
      connection.cursors == old(connection.cursors) && connection.closed == old(connection.closed)
    }

    twostate predicate KeptSettings()
      reads this
    {
      closed == old(closed) && arraysize == old(arraysize)
    }

    /** The fetched part of the result and the cursor's settings are as they were. */
    twostate predicate KeptResult()
      reads this
    {
      && KeptSettings()
      && rows == old(rows) && rowcount == old(rowcount) && resultSet == old(resultSet)
      && columns == old(columns) && transactionId == old(transactionId)
    }

    // ---- ending an execution ----

    /** Observes the end; if it is accepted, the stream is let go and the slot freed. */
    method Finish(outcome: Outcome) returns (r: Option<Error>)
      requires Running() && stream != null && DecodeStatus(outcome.status).Success?
      modifies this, connection
      ensures match T.ObserveEnd(old(connection.Tx()), outcome.status, old(transactionId))
              case Failure(error) => r == Some(error) && unchanged(this, connection)
              case Success(_) =>
                && r.None? && Released() && stream == null && resultComplete
                && connection.Ledger() == T.Enter(old(connection.Ledger()), T.Finish(outcome.status))
                && Report() == F.ReportOf(outcome) && failure == old(failure)
      ensures KeptResult() && KeptConnection()
    {
      hide Connection.Machine, T.ObserveEnd, T.Enter, DecodeStatus;
      r := connection.ObserveExecutionEnd(outcome.status, transactionId);
      if r.Some? {
        return;
      }
      TakeReport(outcome);
      resultComplete := true;
      stream := null;
      connection.ReleaseExecution(this);
    }

    method TakeReport(outcome: Outcome)
      modifies `completeness, `warnings, `omitted
      ensures Report() == F.ReportOf(outcome)
    {
      completeness := Some(outcome.completeness);
      warnings := outcome.warnings;
      omitted := outcome.omitted;
    }

    /** Closes the stream, if there is one, and frees the slot. */
    method LetGo()
      requires stream != null ==> stream.Valid()
      modifies this`stream, this`resultComplete, connection`active, stream
      ensures stream == null && resultComplete
      ensures connection.active == if old(connection.active) == this then null else old(connection.active)
      ensures old(stream) != null ==>
                && old(stream).Valid() && old(stream).closed
                && (old(stream).cancelled <==> !old(stream.complete))
    {
      if stream != null {
        stream.Close();
      }
      stream := null;
      resultComplete := true;
      connection.ReleaseExecution(this);
    }

    /** Gives up the execution for an error, which is remembered and returned translated. */
    method Fail(error: Error) returns (translated: Error)
      requires connection.Machine() && !connection.closed && connection.active == this
      requires stream != null ==> stream.Valid()
      requires connection.running.None? ==> !error.RpcError?
      modifies this, connection, stream
      ensures translated == Translate(error) && failure == Some(translated)
      ensures Released() && stream == null && resultComplete
      ensures connection.Ledger() == if old(connection.running).None? then old(connection.Ledger())
                                     else T.Enter(old(connection.Ledger()), T.Fail(error))
      ensures old(stream) != null ==> old(stream).closed
      ensures KeptResult() && KeptConnection() && Report() == old(Report())
    {
      hide Connection.Machine, ExecutionStream.Valid, T.Enter, Translate;
      LetGo();
      connection.ObserveFailure(error);
      translated := Translate(error);
      failure := Some(translated);
    }

    /** Finishes, and fails instead if the connection refuses the end. */
    method Conclude(outcome: Outcome) returns (r: Option<Error>)
      requires Running() && stream != null && stream.Valid() && failure.None?
      requires DecodeStatus(outcome.status).Success?
      modifies this, connection, stream
      ensures KeptResult() && KeptConnection()
      ensures Released() && stream == null && resultComplete && failure == r
      ensures match T.ObserveEnd(old(connection.Tx()), outcome.status, old(transactionId))
              case Failure(error) =>
                && r == Some(error) && Report() == old(Report())
                && connection.Ledger() == T.Enter(old(connection.Ledger()), T.Fail(error))
              case Success(_) =>
                && r.None? && Report() == F.ReportOf(outcome)
                && connection.Ledger() == T.Enter(old(connection.Ledger()), T.Finish(outcome.status))
    {
      hide T.Run, T.Legal, T.ObserveEnd, T.Effect, DecodeStatus;
      RefusalIsInternal(connection.Tx(), outcome.status, transactionId);
      r := Finish(outcome);
      if r.Some? {
        var raised := Fail(r.value);
        r := Some(raised);
      }
    }

    // ---- pulling events ----

    ghost predicate Tailed()
      requires Holding()
      reads this, stream
    {
      QueryTail(stream.Ahead().events) || EndTail(stream.Ahead().events)
    }

    /** The execution is over, with the error it ended in, if any. */
    ghost predicate Over(r: Option<Error>)
      reads this, connection
    {
      Released() && stream == null && resultComplete && failure == r
    }

    /** Nothing but the buffer and the row count has changed. */
    twostate predicate KeptRunning()
      reads this, connection
    {
      && unchanged(connection) && KeptSettings()
      && stream == old(stream) && resultSet == old(resultSet) && columns == old(columns)
      && transactionId == old(transactionId) && Report() == old(Report())
    }

    /** What is left of a result after an event: no fewer rows are buffered, and it will settle alike. */
    ghost predicate Continues(before: F.FetchState, buffered: seq<Row>)
      requires Holding() && before.shelf.Open?
      reads this, connection, stream
    {
      && |rows| >= |buffered|
      && State().shelf.Open? && F.Settle(State()) == F.Settle(before)
      && Pending().rows == before.shelf.future.rows
      && (|| (State() == before && QueryTail(stream.Ahead().events))
          || (Pending().rows == rows == buffered))
    }

    /** One turn of `_fill_rows`: the next event, with every exception turned into a failure. */
    method Pull() returns (r: Option<Error>)
      requires Running() && Holding() && resultSet && Tailed()
      modifies this, connection, stream
      ensures KeptConnection() && KeptSettings() && columns == old(columns)
      ensures connection.active == this ==>
                && r.None? && KeptRunning() && Holding() && Tailed()
                && |stream.Ahead().events| < |old(stream.Ahead().events)|
                && Continues(old(State()), old(rows))
      ensures connection.active != this ==>
                && Over(r) && resultSet && State() == F.Settle(old(State())) && rows == old(rows) == old(Pending()).rows
    {
      hide F.FutureOf, F.Settle, T.Run, T.Legal, ParseOk, QueryTail, WellEnded, EndTail;
      ghost var ahead := stream.Ahead();
      var step := stream.Next();
      r := Handle(step, ahead);
    }

    /** The step a live stream takes when `ahead` is what lies ahead of it. */
    ghost predicate StepFits(step: Step, ahead: Transcript)
      requires stream != null && stream.Valid()
      reads stream, this`stream
    {
      if ahead.events == [] then step.Raise? && ahead.verdict == Failed(step.error)
      else
        && step == Yield(ahead.events[0])
        && (!step.event.Ended? ==>
              stream.Live() && stream.Ahead() == Transcript(ahead.events[1..], ahead.verdict))
    }

    ghost function Before(ahead: Transcript): F.FetchState
      reads this, connection
    {
      var f := F.FutureOf(ahead);
      F.FetchState(F.Open(f.(rows := rows + f.rows), transactionId), rowcount, Report(), connection.Ledger())
    }

    method Handle(step: Step, ghost ahead: Transcript) returns (r: Option<Error>)
      requires Running() && stream != null && stream.Valid() && !resultComplete && failure.None? && resultSet
      requires WellEnded(ahead) && (QueryTail(ahead.events) || EndTail(ahead.events))
      requires StepFits(step, ahead)
      modifies this, connection, stream
      ensures KeptConnection() && KeptSettings() && columns == old(columns)
      ensures connection.active == this ==>
                && r.None? && KeptRunning() && unchanged(stream) && Holding() && Tailed()
                && ahead.events != [] && stream.Ahead() == Transcript(ahead.events[1..], ahead.verdict)
                && Continues(old(Before(ahead)), old(rows))
      ensures connection.active != this ==>
                && Over(r) && resultSet && State() == F.Settle(old(Before(ahead)))
                && rows == old(rows) == old(Before(ahead)).shelf.future.rows
    {
      hide T.ObserveEnd, T.Enter, Translate, QueryTail, F.AdaptRows, T.Run, T.Legal;
      match step
      case Yield(Rows(_, more)) =>
        Buffer(more, ahead);
        r := None;
      case Yield(SetEnded(_, rowCount)) =>
        TakeCount(rowCount, ahead);
        r := None;
      case Yield(Ended(outcome)) =>
        NothingAheadOfEnd(ahead);
        r := Conclude(outcome);
      case Raise(error) =>
        var raised := Fail(error);
        r := Some(raised);
      case _ =>
        // neither another kind of event nor the end of iteration can come here
        r := None;
        assert false by { NoOtherEvent(ahead.events); }
    }

    lemma NothingAheadOfEnd(t: Transcript)
      requires WellEnded(t) && t.events != [] && t.events[0].Ended? && (QueryTail(t.events) || EndTail(t.events))
      ensures DecodeStatus(t.events[0].outcome.status).Success?
      ensures F.FutureOf(t) == F.Future([], None, F.Concludes(t.events[0].outcome))
    {
      hide DecodeStatus;
      assert t.events[|t.events| - 1] == t.events[0];
    }

    lemma NoOtherEvent(es: seq<Event>)
      requires QueryTail(es) || EndTail(es)
      ensures es != [] ==> es[0].Rows? || es[0].SetEnded? || es[0].Ended?
    {
    }

    /** Row batches are adapted and buffered. */
    method Buffer(more: seq<Row>, ghost ahead: Transcript)
      requires Running() && Holding() && resultSet
      requires ahead.events != [] && ahead.events[0].Rows? && ahead.events[0].rows == more
      requires WellEnded(ahead) && (QueryTail(ahead.events) || EndTail(ahead.events))
      requires StepFits(Yield(ahead.events[0]), ahead)
      modifies this`rows
      ensures Holding() && QueryTail(stream.Ahead().events)
      ensures |rows| >= |old(rows)| && State() == old(Before(ahead))
    {
      hide T.Run, T.Legal, ParseOk, WellEnded, EndTail, F.AdaptRows, F.FutureOf;
      NotEnd(ahead.events);
      rows := rows + F.AdaptRows(more);
      FutureOfRows(ahead, more);
      assert Pending().rows == old(rows) + F.FutureOf(ahead).rows;
    }

    lemma FutureOfRows(t: Transcript, more: seq<Row>)
      requires t.events != [] && t.events[0].Rows? && t.events[0].rows == more
      ensures var f := F.FutureOf(Transcript(t.events[1..], t.verdict));
              F.FutureOf(t) == f.(rows := F.AdaptRows(more) + f.rows)
    {
      hide F.AdaptRows;
    }

    lemma NotEnd(es: seq<Event>)
      requires es != [] && es[0].Rows?
      ensures !EndTail(es)
    {
    }

    /** The end of the set brings the row count; no row comes after it. */
    method TakeCount(rowCount: int, ghost ahead: Transcript)
      requires Running() && Holding() && resultSet
      requires ahead.events != [] && ahead.events[0].SetEnded? && ahead.events[0].rowCount == rowCount
      requires WellEnded(ahead) && (QueryTail(ahead.events) || EndTail(ahead.events))
      requires StepFits(Yield(ahead.events[0]), ahead)
      modifies this`rowcount
      ensures Holding() && EndTail(stream.Ahead().events)
      ensures Pending().rows == rows == old(Before(ahead)).shelf.future.rows
      ensures F.Settle(State()) == F.Settle(old(Before(ahead)))
    {
      hide T.Run, T.Legal, ParseOk, WellEnded, T.ObserveEnd, T.Enter, Translate;
      rowcount := rowCount;
      EndTailFuture(stream.Ahead());
    }

    // ---- filling the buffer ----

    ghost predicate Filling()
      reads this, connection, stream
    {
      && resultSet && failure.None?
      && if resultComplete then Idle() else Running() && Busy()
    }

    /** The rows buffered meet the target, or there is no more to come. */
    method FillRows(target: Option<nat>) returns (r: Option<Error>)
      requires Filling()
      modifies this, connection, stream
      ensures KeptConnection() && KeptSettings() && columns == old(columns)
      ensures old(resultComplete) ==> r.None? && unchanged(this, connection)
      ensures !old(resultComplete) && Supplied(target, old(State())) ==>
                && r.None? && KeptRunning()
                && Running() && Busy() && State() == old(State()) && |rows| >= target.value
      ensures !old(resultComplete) && !Supplied(target, old(State())) ==>
                && Over(r) && resultSet && State() == F.Settle(old(State())) && rows == old(State()).shelf.future.rows
    {
      hide F.Settle, F.FutureOf, QueryTail, EndTail, WellEnded, ParseOk, T.Legal, T.Run;
      r := None;
      while !resultComplete && (target.None? || |rows| < target.value)
        invariant KeptConnection() && KeptSettings() && columns == old(columns) && resultSet
        invariant old(resultComplete) ==> r.None? && unchanged(this, connection)
        invariant !resultComplete ==>
                    && r.None? && KeptRunning() && Running() && Holding() && Tailed()
                    && Keeps(old(State()), target)
        invariant !old(resultComplete) && resultComplete ==>
                    && Over(r) && State() == F.Settle(old(State())) && rows == old(Pending()).rows
                    && (target.None? || |rows| < target.value)
        decreases if resultComplete then 0 else 1 + |stream.Ahead().events|
      {
        r := Pull();
        assert !resultComplete ==> Pending().rows[..|rows|] == rows;
      }
    }

    /** While filling: what is pending is what was, and the result settles as it would have. */
    ghost predicate Keeps(before: F.FetchState, target: Option<nat>)
      requires Holding() && before.shelf.Open?
      reads this, connection, stream
    {
      && State().shelf.Open? && F.Settle(State()) == F.Settle(before)
      && Pending().rows == before.shelf.future.rows
      && (|| (State() == before && QueryTail(stream.Ahead().events))
          || (Pending().rows == rows && (target.None? || |rows| < target.value)))
    }

    ghost predicate Supplied(target: Option<nat>, s: F.FetchState)
      requires s.shelf.Open?
    {
      target.Some? && target.value <= |s.shelf.future.rows|
    }

    // ---- fetching ----

    /** After a fetch: still running as before, or over and idle; the connection knows which. */
    twostate predicate Fetched()
      reads this, connection, stream
    {
      && KeptConnection() && KeptSettings() && columns == old(columns)
      && if old(resultComplete) then unchanged(connection) && Idle()
         else if resultComplete then Released() && Idle()
         else unchanged(connection) && stream == old(stream) && Running() && Busy()
    }

    method TakeMany(wanted: nat) returns (r: F.Answer)
      requires Filling()
      modifies this, connection, stream
      ensures Fetched()
      ensures (r, State()) == F.Take(old(State()), Some(wanted))
    {
      hide F.FutureOf, F.Settle, QueryTail, WellEnded, ParseOk, T.Legal, T.Run;
      if wanted == 0 {
        NoRowsWanted();
        return Success([]);
      }
      var failed := FillRows(Some(wanted));
      if failed.Some? {
        return Failure(failed.value);
      }
      var n := if wanted < |rows| then wanted else |rows|;
      assert rows[..|rows|] == rows;
      r := Success(rows[..n]);
      DropRows(n);
    }

    /** Hands the first buffered rows out; the rest of the result stays as it is. */
    method DropRows(n: nat)
      requires n <= |rows|
      modifies this`rows
      ensures rows == old(rows)[n..]
      ensures Holding() ==>
                && Pending() == old(Pending()).(rows := old(Pending()).rows[n..])
                && old(Pending()).rows[..n] == old(rows)[..n]
    {
      hide F.FutureOf, WellEnded, ParseOk;
      rows := rows[n..];
      assert Holding() ==> old(Pending()).rows[n..] == rows + F.FutureOf(stream.Ahead()).rows;
    }

    /** Asking for no rows takes none and leaves the future as it is. */
    lemma NoRowsWanted()
      requires Filling()
      ensures F.Take(State(), Some(0)) == (Success([]), State())
    {
      hide F.FutureOf, F.Settle, QueryTail, WellEnded, ParseOk, T.Legal, T.Run;
    }

    /** `fetchone` on a readable result: the stream is asked only when nothing is buffered. */
    method TakeOne() returns (r: Result<Option<Row>, Error>)
      requires Filling()
      modifies this, connection, stream
      ensures Fetched()
      ensures (Listed(r), State()) == F.Take(old(State()), Some(1))
    {
      hide F.FutureOf, F.Settle, QueryTail, WellEnded, ParseOk, T.Legal, T.Run;
      if rows == [] && !resultComplete {
        var failed := FillRows(Some(1));
        if failed.Some? {
          return Failure(failed.value);
        }
      }
      if rows == [] {
        return Success(None);
      }
      assert [rows[0]] == rows[..1];
      r := Success(Some(rows[0]));
      DropRows(1);
    }

    method TakeAll() returns (r: F.Answer)
      requires Filling()
      modifies this, connection, stream
      ensures Fetched()
      ensures (r, State()) == F.Take(old(State()), None)
    {
      hide F.FutureOf, F.Settle, QueryTail, WellEnded, ParseOk, T.Legal, T.Run;
      var failed := FillRows(None);
      if failed.Some? {
        return Failure(failed.value);
      }
      r := Success(rows);
      rows := [];
    }

    method EnsureOpen() returns (r: Option<Error>)
      ensures r == if closed || connection.closed then Some(InterfaceError) else None
    {
      if closed {
        return Some(InterfaceError);
      }
      r := if connection.closed then Some(InterfaceError) else None;
    }

    method RequireResultSet() returns (r: Option<Error>)
      ensures r == if closed || connection.closed then Some(InterfaceError)
                   else if !resultSet then Some(ProgrammingError)
                   else failure
    {
      r := EnsureOpen();
      if r.Some? {
        return;
      }
      if !resultSet {
        return Some(ProgrammingError);
      }
      r := failure;
    }

    /** The answer to a demand for rows, and the logical cursor it leaves behind. */
    twostate predicate Answers(d: F.Demand, new r: F.Answer)
      reads this, connection, stream
    {
      && KeptSettings() && columns == old(columns)
      && if old(closed) then r == Failure(InterfaceError) && unchanged(this, connection)
         else (r, State()) == F.Fetch(old(State()), d)
    }

    method FetchMany(size: Option<int>) returns (r: F.Answer)
      requires Known()
      modifies this, connection, stream
      ensures Known() && KeptConnection()
      ensures stream == null || stream == old(stream)
      ensures Answers(F.FetchMany(if size.Some? then size.value else old(arraysize)), r)
    {
      hide F.FutureOf, F.Settle, QueryTail, WellEnded, ParseOk, T.Legal, T.Run;
      var refused := RequireResultSet();
      if refused.Some? {
        return Failure(refused.value);
      }
      var requested := if size.Some? then size.value else arraysize;
      if requested < 0 {
        return Failure(ProgrammingError);
      }
      r := TakeMany(requested);
    }

    method FetchOne() returns (r: Result<Option<Row>, Error>)
      requires Known()
      modifies this, connection, stream
      ensures Known() && KeptConnection()
      ensures stream == null || stream == old(stream)
      ensures Answers(F.FetchOne, Listed(r))
    {
      hide F.FutureOf, F.Settle, QueryTail, WellEnded, ParseOk, T.Legal, T.Run;
      var refused := RequireResultSet();
      if refused.Some? {
        return Failure(refused.value);
      }
      r := TakeOne();
    }

    method FetchAll() returns (r: F.Answer)
      requires Known()
      modifies this, connection, stream
      ensures Known() && KeptConnection()
      ensures stream == null || stream == old(stream)
      ensures Answers(F.FetchAll, r)
    {
      hide F.FutureOf, F.Settle, QueryTail, WellEnded, ParseOk, T.Legal, T.Run;
      var refused := RequireResultSet();
      if refused.Some? {
        return Failure(refused.value);
      }
      r := TakeAll();
    }

    /** The `arraysize` setter. */
    method SetArraysize(size: int) returns (r: Option<Error>)
      requires Known()
      modifies `arraysize
      ensures Known()
      ensures r == (if size <= 0 then Some(ProgrammingError) else None)
      ensures Desk() == old(Desk()).(arraysize := if size <= 0 then old(arraysize) else size)
    {
      hide Connection.Machine, T.Enter, Holding, Busy, Shelf;
      if size <= 0 {
        return Some(ProgrammingError);
      }
      arraysize := size;
      r := None;
    }

    // ---- discarding ----

    /** Cancels what is still running and forgets the buffered rows. */
    method DiscardPending()
      requires connection.Machine() && !connection.closed && Settled()
      modifies `stream, `rows, `resultComplete, connection`active, connection`log, connection`running, stream
      ensures stream == null && rows == [] && resultComplete && connection.Machine()
      ensures if old(connection.active) == this then
                && Released() && connection.Ledger() == Dropped(old(connection.Ledger()), true)
                && old(stream).closed && old(stream).cancelled
              else unchanged(connection)
      ensures Desk() == Cut(old(Desk()))
    {
      hide T.Run, T.Legal, QueryTail, WellEnded, ParseOk, F.FutureOf;
      ghost var wasActive := connection.active == this;
      LetGo();
      rows := [];
      if connection.running.Some? && wasActive {
        connection.RecordDiscard();
      }
    }

    /** The result is open exactly while the cursor is the active one. */
    lemma OpenWhileActive()
      requires Known()
      ensures Desk().shelf.Open? <==> connection.active == this
    {
      hide Connection.Machine, QueryTail, WellEnded, ExecutionStream.Valid, F.FutureOf;
    }

    lemma HoldsItsStream()
      requires Settled()
      ensures connection.active == this ==> stream != null
    {
    }

    /** Discards the result from the connection's side: the next fetch finds none. */
    method DiscardByConnection()
      requires connection.Machine() && !connection.closed && Settled()
      modifies this, connection`active, connection`log, connection`running, stream
      ensures Idle() && connection.Machine() && transactionId == old(transactionId)
      ensures Desk() == Reset(old(Desk()))
      ensures if old(connection.active) == this then
                && Released() && connection.Ledger() == Dropped(old(connection.Ledger()), true)
                && old(stream).cancelled
              else unchanged(connection)
    {
      HoldsItsStream();
      hide Connection.Machine, T.Enter, Settled, Holding, Cut;
      DiscardPending();
      ForgetResult();
    }

    /** The fields that describe a result, as if nothing had been executed. */
    method ForgetResult()
      modifies `columns, `rowcount, `resultSet, `failure, `completeness, `warnings, `omitted
      ensures columns == [] && rowcount == -1 && !resultSet && failure.None? && Report() == F.NO_REPORT
    {
      columns := [];
      rowcount := -1;
      resultSet := false;
      failure := None;
      completeness := None;
      warnings := [];
      omitted := 0;
    }

    method ResetResult()
      requires connection.Machine() && !connection.closed && Settled()
      modifies this, connection`active, connection`log, connection`running, stream
      ensures Idle() && connection.Machine() && transactionId == ""
      ensures Desk() == Reset(old(Desk())) && Fresh()
      ensures if old(connection.active) == this then
                Released() && connection.Ledger() == Dropped(old(connection.Ledger()), true)
              else unchanged(connection)
    {
      hide Connection.Machine, T.Enter, Settled, Holding, Cut;
      DiscardPending();
      ForgetResult();
      transactionId := "";
    }

    method CloseFromConnection()
      requires connection.Machine() && !connection.closed && !closed && Settled()
      modifies this, connection`active, connection`log, connection`running, stream
      ensures closed && Idle() && connection.Machine()
      ensures Desk() == Cut(old(Desk())).(closed := true)
      ensures if old(connection.active) == this then
                Released() && connection.Ledger() == Dropped(old(connection.Ledger()), true)
              else unchanged(connection)
    {
      hide Connection.Machine, T.Enter, Settled, Holding, Cut;
      DiscardPending();
      closed := true;
    }

    method Close()
      requires Known()
      modifies this, connection, stream
      ensures Known() && closed && connection.closed == old(connection.closed)
      ensures connection.cursors == old(connection.cursors) - {this}
      ensures old(closed) ==> unchanged(this, connection)
      ensures !old(closed) ==>
                && Desk() == Cut(old(Desk())).(closed := true)
                && connection.Ledger() == Dropped(old(connection.Ledger()), old(connection.active) == this)
    {
      hide Connection.Machine, T.Enter, Holding, Busy, Shelf;
      if closed {
        return;
      }
      DiscardPending();
      closed := true;
      connection.RemoveCursor(this);
    }

    // ---- executing ----

    /** What opening a result from this transcript comes to, from the fields as they are. */
    ghost function Opening(t: Transcript): Launched
      reads this, connection
    {
      OpenExecution(t, transactionId, rowcount, connection.Ledger())
    }

    ghost predicate Reading()
      reads this, connection
    {
      Running() && !resultSet && columns == [] && rows == [] && Report() == F.NO_REPORT
    }

    twostate predicate KeptIdentity()
      reads this
    {
      KeptSettings() && transactionId == old(transactionId)
    }

    /** The cursor after reading the initial result, which came to `o`. */
    ghost predicate OpenedAs(r: Option<Error>, o: Launched)
      reads this, connection, stream
    {
      match r
      case None =>
        && o.failure.None? && failure.None? && columns == o.columns
        && (if resultSet then Running() && Busy() else Released() && stream == null && resultComplete && rows == [])
        && State() == o.state
      case Some(error) =>
        && Reading() && stream != null && stream.Valid()
        && o == GivenUp(error, rowcount, connection.Ledger())
    }

    /** `_read_initial_result`; an exception is handed to the caller as it is. */
    method ReadInitialResult() returns (r: Option<Error>)
      requires Reading() && Holding() && CursorStreams.Opening(stream.Ahead().events)
      modifies this, connection, stream
      ensures KeptIdentity() && KeptConnection()
      ensures OpenedAs(r, old(Opening(stream.Ahead())))
      ensures r.Some? || resultSet ==> unchanged(connection) && stream == old(stream)
    {
      hide F.FutureOf, T.Run, T.Legal, ParseOk, QueryTail, EndTail, OpenExecution, CursorStreams.Opening, WellEnded;
      var more := true;
      r := None;
      while more
        invariant KeptIdentity() && KeptConnection()
        invariant more || r.Some? || resultSet ==> unchanged(connection) && stream == old(stream)
        invariant more ==>
                    && Reading() && Holding()
                    && (CursorStreams.Opening(stream.Ahead().events) || EndTail(stream.Ahead().events))
                    && Opening(stream.Ahead()) == old(Opening(stream.Ahead()))
        invariant !more ==> OpenedAs(r, old(Opening(stream.Ahead())))
        decreases more, if more then |stream.Ahead().events| else 0
      {
        ghost var ahead := stream.Ahead();
        var step := stream.Next();
        more, r := Receive(step, ahead);
      }
    }

    /** A result set has started; its rows are all still to come. */
    method OpenResult(started: seq<Column>, ghost ahead: Transcript)
      requires Reading() && stream != null && stream.Valid() && !resultComplete && failure.None?
      requires WellEnded(ahead) && (CursorStreams.Opening(ahead.events) || EndTail(ahead.events))
      requires ahead.events != [] && ahead.events[0].Started? && ahead.events[0].columns == started
      requires StepFits(Yield(ahead.events[0]), ahead)
      modifies `resultSet, `columns
      ensures resultSet && OpenedAs(None, old(Opening(ahead)))
    {
      hide F.FutureOf, Connection.Machine, ExecutionStream.Valid, Read, QueryTail, EndTail, CursorStreams.Opening,
           WellEnded, T.ObserveEnd, T.Enter, DecodeStatus;
      StartedTail(ahead);
      resultSet := true;
      columns := started;
      assert Pending() == F.FutureOf(stream.Ahead());
    }

    lemma StartedTail(t: Transcript)
      requires WellEnded(t) && (CursorStreams.Opening(t.events) || EndTail(t.events))
      requires t.events != [] && t.events[0].Started?
      ensures var rest := Transcript(t.events[1..], t.verdict); WellEnded(rest) && QueryTail(rest.events)
    {
      hide DecodeStatus;
    }

    method Receive(step: Step, ghost ahead: Transcript) returns (more: bool, r: Option<Error>)
      requires Reading() && stream != null && stream.Valid() && !resultComplete && failure.None?
      requires WellEnded(ahead) && (CursorStreams.Opening(ahead.events) || EndTail(ahead.events))
      requires StepFits(step, ahead)
      modifies this, connection
      ensures KeptIdentity() && KeptConnection()
      ensures more || r.Some? || resultSet ==> unchanged(connection) && stream == old(stream)
      ensures more ==>
                && Reading() && Holding() && EndTail(stream.Ahead().events)
                && ahead.events != [] && |stream.Ahead().events| < |ahead.events|
                && Opening(stream.Ahead()) == old(Opening(ahead))
      ensures !more ==> OpenedAs(r, old(Opening(ahead)))
    {
      hide F.FutureOf, T.Run, T.Legal, ParseOk, QueryTail, UpdateRowcount, T.ObserveEnd, T.Enter, DecodeStatus,
           Translate;
      more, r := false, None;
      match step
      case Yield(Started(_, started, _, _)) =>
        OpenResult(started, ahead);
      case Yield(Updated(_, counts)) =>
        rowcount := UpdateRowcount(counts);
        more := true;
      case Yield(Ended(outcome)) =>
        r := FinishWithoutRows(outcome, ahead);
      case Raise(error) =>
        r := Some(error);
      case _ =>
        // no row batch and no set end comes before a set has started
        assert false;
    }

    /** The execution ends before any result set has started. */
    method FinishWithoutRows(outcome: Outcome, ghost ahead: Transcript) returns (r: Option<Error>)
      requires Reading() && stream != null && stream.Valid() && !resultComplete && failure.None?
      requires ahead.events != [] && ahead.events[0] == Ended(outcome) && DecodeStatus(outcome.status).Success?
      modifies this, connection
      ensures KeptIdentity() && KeptConnection() && !resultSet
      ensures r.Some? ==> unchanged(connection) && stream == old(stream)
      ensures OpenedAs(r, old(Opening(ahead)))
    {
      hide F.FutureOf, T.Run, T.Legal, ParseOk, QueryTail, WellEnded, UpdateRowcount, T.ObserveEnd, T.Enter,
           DecodeStatus;
      r := Finish(outcome);
    }

    /** A cursor with nothing left of any earlier result. */
    ghost predicate Fresh()
      reads this
    {
      && Idle() && !resultSet && failure.None? && rowcount == -1 && columns == [] && rows == []
      && Report() == F.NO_REPORT
    }

    /** After an execution attempt: the result is open and running, or nothing is. */
    ghost predicate Launching(r: Option<Error>)
      reads this, connection, stream
    {
      if r.None? && resultSet then Running() && Busy()
      else Released() && stream == null && resultComplete && !resultSet && rows == []
    }

    /** What launching came to. */
    ghost predicate LaunchedAs(r: Option<Error>, l: Launched)
      reads this, connection, stream
    {
      r == l.failure && columns == l.columns && State() == l.state
    }

    /** Reads the initial result and turns an exception into the cursor's failure. */
    method ReadOrFail() returns (r: Option<Error>)
      requires Reading() && Holding() && CursorStreams.Opening(stream.Ahead().events)
      modifies this, connection, stream
      ensures KeptIdentity() && KeptConnection()
      ensures Launching(r) && (stream != null ==> stream == old(stream))
      ensures LaunchedAs(r, old(Opening(stream.Ahead())))
    {
      hide F.FutureOf, T.Run, T.Legal, ParseOk, QueryTail, CursorStreams.Opening, OpenExecution, WellEnded, T.Effect,
           Translate;
      r := ReadInitialResult();
      if r.Some? {
        var raised := Fail(r.value);
        r := Some(raised);
      }
    }

    /** Sends the request and reads the reply up to the first result. */
    method Send(cfg: Config, call: CallReply) returns (r: Option<Error>)
      requires connection.Machine() && !connection.closed && connection.active == this && connection.running.None?
      requires Fresh() && T.Admit(connection.Tx()) == T.UseId(transactionId) && SingleResult(cfg)
      modifies this, connection
      ensures KeptIdentity() && KeptConnection()
      ensures Launching(r) && (stream != null ==> fresh(stream))
      ensures LaunchedAs(r, LaunchCall(cfg, old(connection.Ledger()), call, transactionId))
    {
      hide Connection.Machine, F.FutureOf, T.Enter, T.Admit, ParseOk, QueryTail, CursorStreams.Opening,
           OpenExecution, WellEnded, Read;
      connection.RecordExecution(transactionId);
      match call
      case CallFailed(details) =>
        var raised := Fail(RpcError(details));
        r := Some(raised);
      case CallAccepted(responses, ending) =>
        SingleResultOpening(cfg, responses, ending);
        stream := new ExecutionStream(cfg, responses, ending);
        resultComplete := false;
        r := ReadOrFail();
    }

    /** With the slot claimed: the session's own checks, then the call. */
    method StartUnder(id: string, operation: string, arguments: seq<Argument>, reply: ExecuteReply)
      returns (r: Option<Error>)
      requires connection.Machine() && !connection.closed && connection.active == this && connection.running.None?
      requires Fresh() && T.Admit(connection.Tx()) == T.UseId(id)
      requires forall a | a in arguments :: SoundArgument(connection.terms.info.lib, a)
      modifies this, connection
      ensures KeptSettings() && KeptConnection()
      ensures Launching(r) && (stream != null ==> fresh(stream))
      ensures LaunchedAs(r, LaunchUnder(connection.terms, old(connection.Ledger()), operation, arguments, arraysize,
                                        reply, id))
    {
      hide F.FutureOf, T.Run, T.Legal, T.Admit, ParseOk, QueryTail, WellEnded, OpenExecution, Refusal, T.Effect,
           LaunchCall;
      transactionId := id;
      var terms := connection.terms;
      var accepted := AcceptedOutputFeatures(terms.info);
      var refusal := Refusal(terms.info, operation, arguments, transactionId, arraysize, accepted, terms.allowPartial,
                             false, reply.requestBytes);
      if refusal.Some? {
        var raised := Fail(refusal.value);
        return Some(raised);
      }
      r := Send(Reader(terms), reply.call);
    }

    /** The part of `execute` after the reset. */
    method Start(operation: string, arguments: seq<Argument>, reply: ExecuteReply) returns (r: Option<Error>)
      requires connection.Machine() && !connection.closed && Fresh() && connection.active != this
      requires connection.active == null ==> connection.running.None?
      requires forall a | a in arguments :: SoundArgument(connection.terms.info.lib, a)
      modifies this, connection
      ensures KeptSettings() && KeptConnection() && connection.Machine()
      ensures old(connection.active) != null ==>
                Fresh() && connection.active == old(connection.active) && connection.running == old(connection.running)
      ensures old(connection.active) == null ==> Launching(r)
      ensures stream != null ==> fresh(stream)
      ensures r.None? && resultSet ==> Running() && Busy()
      ensures LaunchedAs(r, Launch(connection.terms, old(connection.Ledger()), old(connection.active) != null,
                                   operation, arguments, arraysize, reply))
    {
      hide F.FutureOf, T.Run, T.Legal, T.Admit, T.Effect, ParseOk, QueryTail, WellEnded, LaunchUnder, AdmitUnder;
      var admitted := connection.TransactionForExecute(reply.begin);
      if admitted.Failure? {
        return Some(admitted.error);
      }
      r := connection.ClaimExecution(this);
      if r.Some? {
        return;
      }
      r := StartUnder(admitted.value, operation, arguments, reply);
    }

    /** The part of `execute` after its arguments are checked. */
    method Restart(operation: string, arguments: seq<Argument>, reply: ExecuteReply) returns (r: Option<Error>)
      requires connection.Machine() && !connection.closed && Settled()
      requires connection.active == null ==> connection.running.None?
      requires forall a | a in arguments :: SoundArgument(connection.terms.info.lib, a)
      modifies this, connection, stream
      ensures KeptSettings() && KeptConnection() && connection.Machine() && Settled()
      ensures old(SlotTaken()) ==>
                connection.active == old(connection.active) && connection.running == old(connection.running)
      ensures !old(SlotTaken()) ==> connection.active in {null, this}
      ensures connection.active == null ==> connection.running.None?
      ensures stream != null ==> fresh(stream)
      ensures r.None? && resultSet ==> Running() && Busy()
      ensures LaunchedAs(r, Launch(connection.terms, Dropped(old(connection.Ledger()), old(connection.active) == this),
                                   old(SlotTaken()), operation, arguments, arraysize, reply))
    {
      hide F.FutureOf, T.Run, T.Legal, T.Effect, ParseOk, QueryTail, WellEnded, Launch;
      ResetResult();
      r := Start(operation, arguments, reply);
    }

    /** Another cursor's execution occupies the connection. */
    ghost predicate SlotTaken()
      reads connection
    {
      connection.active != null && connection.active != this
    }

    /** An operation on an open cursor left the cursor and the ledger as `a` says. */
    ghost predicate LeftAs(r: Option<Error>, a: Aftermath)
      reads this, connection, stream
    {
      r == a.failure && Desk() == a.desk && connection.Ledger() == a.ledger
    }

    /** `Restart`, seen from the whole connection. */
    method Attempt(operation: string, arguments: seq<Argument>, reply: ExecuteReply) returns (r: Option<Error>)
      requires Known() && !closed
      requires forall a | a in arguments :: SoundArgument(connection.terms.info.lib, a)
      modifies this, connection, stream
      ensures Known() && KeptConnection() && KeptSettings()
      ensures stream != null ==> fresh(stream)
      ensures r.None? && resultSet ==> Running() && Busy()
      ensures LaunchedAs(r, Launch(connection.terms, Dropped(old(connection.Ledger()), old(connection.active) == this),
                                   old(SlotTaken()), operation, arguments, arraysize, reply))
      ensures !old(SlotTaken()) <==> !SlotTaken()
    {
      hide Connection.Machine, T.Enter, Holding, Busy, Shelf, SoundArgument, Launch, LaunchedAs;
      r := Restart(operation, arguments, reply);
      assert forall c | c in connection.cursors && c != this :: c.Settled();
    }

    /** `execute`, from the server's replies; it returns the error it would raise. */
    method Execute(operation: string, parameters: Parameters, reply: ExecuteReply) returns (r: Option<Error>)
      requires Known() && SoundParameters(connection.terms, parameters)
      modifies this, connection, stream
      ensures Known() && KeptConnection() && KeptSettings()
      ensures stream != null && stream != old(stream) ==> fresh(stream)
      ensures r.None? && resultSet ==> Running() && Busy()
      ensures old(closed) ==> r == Some(InterfaceError) && unchanged(this, connection)
      ensures !old(closed) ==>
                LeftAs(r, ExecuteOn(connection.terms, old(Desk()), old(connection.Ledger()), old(SlotTaken()),
                                    operation, parameters, reply))
      ensures !old(SlotTaken()) <==> !SlotTaken()
    {
      OpenWhileActive();
      hide Connection.Machine, T.Enter, Settled, Shelf, SoundArgument, Launch;
      r := EnsureOpen();
      if r.Some? {
        return;
      }
      if operation == "" || parameters.NotPositional? {
        return Some(ProgrammingError);
      }
      r := Attempt(operation, ArgumentsOf(parameters), reply);
    }

    /** One turn of `executemany`: a statement that produces rows is discarded and refused. */
    method ExecuteWithoutRows(operation: string, b: Batch) returns (r: Option<Error>)
      requires Known() && !closed && SoundParameters(connection.terms, b.parameters)
      modifies this, connection, stream
      ensures Known() && !closed && KeptConnection()
      ensures stream == null || stream == old(stream) || fresh(stream)
      ensures LeftAs(r, ExecuteForCount(connection.terms, old(Desk()), old(connection.Ledger()), old(SlotTaken()),
                                        operation, b))
      ensures r.None? ==> !resultSet
      ensures !old(SlotTaken()) <==> !SlotTaken()
    {
      hide F.FutureOf, T.Run, T.Legal, T.Effect, ParseOk, QueryTail, WellEnded, ExecuteOn;
      r := Execute(operation, b.parameters, b.reply);
      if r.None? && resultSet {
        DiscardPending();
        r := Some(NotSupportedError);
      }
    }

    /**
     * `executemany`: one execution per parameter sequence, stopping at the first error or at
     * a statement that produces rows.
     */
    method ExecuteMany(operation: string, batches: Option<seq<Batch>>) returns (r: Option<Error>)
      requires Known() && (batches.Some? ==> SoundBatches(connection.terms, batches.value))
      modifies this, connection, stream
      ensures Known() && KeptConnection()
      ensures stream == null || stream == old(stream) || fresh(stream)
      ensures old(closed) ==> r == Some(InterfaceError) && unchanged(this, connection)
      ensures !old(closed) ==>
                LeftAs(r, ExecuteManyOn(connection.terms, old(Desk()), old(connection.Ledger()), old(SlotTaken()),
                                        operation, batches))
      ensures !old(SlotTaken()) <==> !SlotTaken()
    {
      OpenWhileActive();
      hide Connection.Machine, T.Enter, Settled, Holding, Busy, ExecuteEach;
      r := EnsureOpen();
      if r.Some? {
        return;
      }
      if batches.None? {
        return Some(ProgrammingError);
      }
      if batches.value == [] {
        ReportNothing();
        return;
      }
      r := ExecuteInTurn(operation, batches.value);
    }

    /** Nothing was executed: no result, and no rows affected. */
    method ReportNothing()
      requires Known() && !closed
      modifies this, connection, stream
      ensures Known() && KeptConnection() && stream == null
      ensures Desk() == Reset(old(Desk())).(rowcount := 0)
      ensures connection.Ledger() == Dropped(old(connection.Ledger()), old(connection.active) == this)
      ensures !old(SlotTaken()) <==> !SlotTaken()
    {
      OpenWhileActive();
      hide Connection.Machine, T.Enter, Holding, Busy;
      ResetResult();
      assert forall c | c in connection.cursors && c != this :: c.Settled();
      ReportTotal(0);
    }

    /** The total of several executions. */
    method ReportTotal(total: int)
      requires Known()
      modifies `rowcount
      ensures Known() && Desk() == old(Desk()).(rowcount := total)
    {
      hide Connection.Machine, T.Enter, Holding, Busy, Shelf;
      rowcount := total;
    }

    method ExecuteInTurn(operation: string, batches: seq<Batch>) returns (r: Option<Error>)
      requires Known() && !closed && SoundBatches(connection.terms, batches) && batches != []
      modifies this, connection, stream
      ensures Known() && !closed && KeptConnection()
      ensures stream == null || stream == old(stream) || fresh(stream)
      ensures LeftAs(r, ExecuteEach(connection.terms, old(Desk()), old(connection.Ledger()), old(SlotTaken()),
                                    operation, batches, 0))
      ensures !old(SlotTaken()) <==> !SlotTaken()
    {
      hide Connection.Machine, Connection.Valid, T.Enter, Settled, Holding, Busy, Shelf, ExecuteForCount;
      var total := 0;
      r := None;
      for i := 0 to |batches|
        invariant Known() && !closed && KeptConnection()
        invariant stream == null || stream == old(stream) || fresh(stream)
        invariant r.None? && total >= -1 && (i > 0 ==> !resultSet)
        invariant !old(SlotTaken()) <==> !SlotTaken()
        invariant ExecuteEach(connection.terms, Desk(), connection.Ledger(), SlotTaken(), operation, batches[i..],
                              total)
                  == ExecuteEach(connection.terms, old(Desk()), old(connection.Ledger()), old(SlotTaken()), operation,
                                 batches, 0)
      {
        assert batches[i] in batches && batches[i..][0] == batches[i] && batches[i..][1..] == batches[i + 1..];
        r := ExecuteWithoutRows(operation, batches[i]);
        if r.Some? {
          return;
        }
        if rowcount < 0 {
          total := -1;
        } else if total >= 0 {
          total := total + rowcount;
        }
      }
      ReportTotal(total);
    }
  }

  /** A single row as the list of rows it is. */
  function Listed(r: Result<Option<Row>, Error>): F.Answer {
    match r
    case Success(row) => Success(if row.Some? then [row.value] else [])
    case Failure(error) => Failure(error)
  }

  lemma RefusalIsInternal(tx: T.Tx, status: Status, expectedId: string)
    ensures T.ObserveEnd(tx, status, expectedId).Failure? ==>
              T.ObserveEnd(tx, status, expectedId).error == InternalError
  {
  }

  lemma LocalErrorChangesNothing(tx: T.Tx, error: Error)
    ensures !error.RpcError? ==> T.ObserveError(tx, error, false) == tx
  {
  }
}
