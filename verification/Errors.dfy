/** Transaction states, RPC error details and the exceptions of both layers. */
module Errors {
  import opened Wrappers

  /** The protocol's transaction states; the wire enum is open, hence `OtherState`. */
  datatype TxState =
    | StateUnspecified
    | StateNone
    | StateActive
    | StateRollbackOnly
    | StateCommitted
    | StateRolledBack
    | StateUnknown
    | OtherState(number: int)

  /** A transaction status as the client hands it on after decoding. */
  datatype Status = Status(id: string, state: TxState)

  /** The part of a failed RPC's details the driver branches on. */
  datatype RpcDetails = RpcDetails(
    transactionId: Option<string>,
    transactionState: Option<TxState>,
    sqlExecuted: Option<bool>)

  /** Transport errors and Python's own first, then the DB-API ones they are translated to. */
  datatype Error =
    | CodecError
    | CapabilityError
    | ConfigurationError
    | ProtocolError
    | RpcError(details: RpcDetails)
    | OverflowError
    | DataError
    | NotSupportedError
    | InternalError
    | InterfaceError
    | ProgrammingError
    | OperationalError
    | DatabaseError(rpc: RpcDetails)

  /** The DB-API error that reports a transport error; DB-API errors are kept. */
  function Translate(error: Error): Error {
    match error
    case CodecError => DataError
    case CapabilityError => NotSupportedError
    case ProtocolError => InternalError
    case ConfigurationError => InterfaceError
    case RpcError(details) => DatabaseError(details)
    case OverflowError => InterfaceError
    case _ => error
  }

  /** Rejects a status whose state and identifier contradict each other. */
  function DecodeStatus(wire: Status): Result<Status, Error> {
    if wire.state == StateNone && wire.id != "" then
      Failure(ProtocolError)
    else if wire.state in {StateActive, StateRollbackOnly, StateCommitted, StateRolledBack} && wire.id == "" then
      Failure(ProtocolError)
    else
      Success(wire)
  }
}
