/**
 * The connection's transaction machine, as a fold over the log of calls it made and of
 * what it observed. The replies in the log are the server's and are arbitrary.
 */
module Transactions {
  import opened Wrappers
  import opened Errors

  /** The transaction fields of a connection. */
  datatype Tx = Tx(autocommit: bool, id: Option<string>, state: TxState, commitAttempted: bool)

  /** With the execution still running, by the transaction it was sent under, and closedness. */
  datatype Session = Session(tx: Tx, running: Option<string>, closed: bool)

  datatype Action =
    | Begin(begun: Result<string, Error>)
    | Execute(id: string)
    | Finish(status: Status)
    | Fail(error: Error)
    | Discard
    | Commit(id: string, reply: Result<Status, Error>)
    | Rollback(id: string, reply: Result<Status, Error>, closing: bool)
    | SetMode(autocommit: bool)
    | Logout

  function Start(autocommit: bool): Session {
    Session(Tx(autocommit, None, StateNone, false), None, false)
  }

  function Cleared(tx: Tx): Tx {
    tx.(id := None, state := StateNone, commitAttempted := false)
  }

  /** The transaction fields together with the log that led to them. */
  datatype Ledger = Ledger(tx: Tx, log: seq<Action>)

  // ---- what the connection does with a status or an error ----

  /** `_observe_execution_end`. */
  function ObserveEnd(tx: Tx, status: Status, expectedId: string): Result<Tx, Error> {
    if tx.autocommit then
      if status.state != StateNone || status.id != "" then Failure(InternalError) else Success(tx)
    else if status.id != expectedId || status.state !in {StateActive, StateRollbackOnly} then
      Failure(InternalError)
    else
      Success(tx.(state := status.state))
  }

  /** `_observe_error`. */
  function ObserveError(tx: Tx, error: Error, operation: bool): Tx {
    if !error.RpcError? || tx.id.None? then
      if operation && tx.id.Some? then tx.(state := StateUnknown) else tx
    else if error.details.transactionId != tx.id || error.details.transactionState.None? then
      if operation || error.details.sqlExecuted != Some(false) then tx.(state := StateUnknown) else tx
    else if error.details.transactionState.value in {StateCommitted, StateRolledBack} then
      Cleared(tx)
    else
      tx.(state := error.details.transactionState.value)
  }

  /** `_validate_terminal_status`, and the clearing that follows its success. */
  function ObserveTerminal(tx: Tx, status: Status, expected: Status): Tx {
    if status == expected then Cleared(tx) else tx.(state := status.state)
  }

  /** What an execution may be sent under: an identifier, a new transaction's, or nothing. */
  datatype Admission = UseId(id: string) | NeedsBegin | Refuse(error: Error)

  /** The decision of `_transaction_for_execute`. */
  function Admit(tx: Tx): Admission {
    if tx.autocommit then UseId("")
    else if tx.id.None? then NeedsBegin
    else if tx.commitAttempted || tx.state == StateUnknown then Refuse(OperationalError)
    else if tx.state == StateRollbackOnly then Refuse(OperationalError)
    else UseId(tx.id.value)
  }

  // ---- the machine ----

  predicate Allowed(s: Session, a: Action) {
    && !s.closed
    && match a
       case Begin(begun) => Admit(s.tx).NeedsBegin? && (begun.Success? ==> begun.value != "")
       case Execute(id) => s.running.None? && Admit(s.tx) == UseId(id)
       case Finish(status) =>
         && s.running.Some?
         && DecodeStatus(status).Success?
         && ObserveEnd(s.tx, status, s.running.value).Success?
       case Fail(_) => s.running.Some?
       case Discard => s.running.Some?
       case Commit(id, _) =>
         s.running.None? && s.tx.id == Some(id) && s.tx.state != StateRollbackOnly && !s.tx.commitAttempted
       case Rollback(id, _, closing) =>
         && s.running.None? && s.tx.id == Some(id)
         && (closing ==> s.tx.state in {StateActive, StateRollbackOnly})
       case SetMode(autocommit) =>
         autocommit != s.tx.autocommit && (autocommit ==> s.tx.id.None? && s.running.None?)
       case Logout => s.running.None?
  }

  /** The transaction fields after a call, with its reply, or after an observation. */
  function Effect(tx: Tx, a: Action): Tx {
    match a
    case Begin(begun) =>
      if begun.Success? then tx.(id := Some(begun.value), state := StateActive, commitAttempted := false) else tx
    case Execute(_) => tx
    case Finish(status) => if tx.autocommit then tx else tx.(state := status.state)
    case Fail(error) => ObserveError(tx, error, false)
    case Discard => tx
    case Commit(id, reply) =>
      var attempted := tx.(commitAttempted := true);
      (match reply
       case Success(status) => ObserveTerminal(attempted, status, Status(id, StateCommitted))
       case Failure(error) => ObserveError(attempted, error, true))
    case Rollback(id, reply, closing) =>
      (match reply
       case Success(status) => ObserveTerminal(tx, status, Status(id, StateRolledBack))
       case Failure(error) => if closing then tx else ObserveError(tx, error, true))
    case SetMode(autocommit) => tx.(autocommit := autocommit)
    case Logout => tx
  }

  /** One more entry, with its effect on the fields. */
  function Enter(l: Ledger, a: Action): Ledger {
    Ledger(Effect(l.tx, a), l.log + [a])
  }

  function After(s: Session, a: Action): Session
    requires Allowed(s, a)
  {
    var running :=
      match a
      case Execute(id) => Some(id)
      case Finish(_) => None
      case Fail(_) => None
      case Discard => None
      case _ => s.running;
    Session(Effect(s.tx, a), running, s.closed || a.Logout?)
  }

  /** The machine's state after a log, provided every step of the log was allowed. */
  function Run(start: Session, log: seq<Action>): Option<Session> {
    if log == [] then Some(start)
    else
      match Run(start, log[..|log| - 1])
      case Some(s) => if Allowed(s, log[|log| - 1]) then Some(After(s, log[|log| - 1])) else None
      case None => None
  }

  ghost predicate Legal(autocommit: bool, log: seq<Action>) {
    Run(Start(autocommit), log).Some?
  }

  /** The state between the first `n` entries of a legal log and the rest. */
  function At(autocommit: bool, log: seq<Action>, n: nat): Session
    requires Legal(autocommit, log) && n <= |log|
  {
    LegalPrefix(autocommit, log, n);
    Run(Start(autocommit), log[..n]).value
  }

  lemma {:induction false} LegalPrefix(autocommit: bool, log: seq<Action>, n: nat)
    requires Legal(autocommit, log) && n <= |log|
    ensures Legal(autocommit, log[..n])
    decreases |log|
  {
    if n == |log| {
      assert log[..n] == log;
    } else {
      var init := log[..|log| - 1];
      LegalPrefix(autocommit, init, n);
      assert init[..n] == log[..n];
    }
  }

  lemma StepOf(autocommit: bool, log: seq<Action>, n: nat)
    requires Legal(autocommit, log) && n < |log|
    ensures Allowed(At(autocommit, log, n), log[n])
    ensures At(autocommit, log, n + 1) == After(At(autocommit, log, n), log[n])
  {
    LegalPrefix(autocommit, log, n + 1);
    assert log[..n + 1][..n] == log[..n] && log[..n + 1][n] == log[n];
  }

  // ---- invariants of every legal log ----

  predicate Consistent(s: Session) {
    && (s.tx.autocommit ==> s.tx.id.None?)
    && (s.tx.id.None? ==> s.tx.state == StateNone && !s.tx.commitAttempted)
    && s.tx.id != Some("")
    && (s.running.Some? && s.running.value != "" ==> s.tx.id == s.running)
    && (s.running.Some? ==> s.tx.state !in {StateRollbackOnly, StateUnknown} && !s.tx.commitAttempted)
    && (s.tx.autocommit ==> s.running in {None, Some("")})
  }

  lemma ConsistentStep(s: Session, a: Action)
    requires Consistent(s) && Allowed(s, a)
    ensures Consistent(After(s, a))
  {
  }

  lemma {:induction false} AlwaysConsistent(autocommit: bool, log: seq<Action>, n: nat)
    requires Legal(autocommit, log) && n <= |log|
    ensures Consistent(At(autocommit, log, n))
  {
    if n == 0 {
      assert log[..0] == [];
    } else {
      AlwaysConsistent(autocommit, log, n - 1);
      StepOf(autocommit, log, n - 1);
      ConsistentStep(At(autocommit, log, n - 1), log[n - 1]);
    }
  }
}
