/**
 * A connection and all its cursors as one machine: every public call is a step, from the
 * server's replies. The classes of `DbApi` are proved to take exactly these steps.
 */
module Worlds {
  import opened Wrappers
  import opened Errors
  import opened Transactions
  import opened Fetching
  import opened Executions

  /** One connection: its ledger, whether it is closed, and the cursors it made, in order. */
  datatype World = World(terms: Terms, ledger: Ledger, closed: bool, desks: seq<Desk>)

  /** A call of the public interface; cursors are named by the order of their creation. */
  datatype Call =
    | NewCursor
    | Execute(cursor: nat, operation: string, parameters: Parameters, reply: ExecuteReply)
    | ExecuteMany(cursor: nat, operation: string, batches: Option<seq<Batch>>)
    | Fetch(cursor: nat, demand: Demand)
    | FetchDefault(cursor: nat)
    | SetArraysize(cursor: nat, size: int)
    | CloseCursor(cursor: nat)
    | Commit(terminal: TxReply)
    | Rollback(terminal: TxReply)
    | SetAutocommit(value: bool, terminal: TxReply)
    | CloseConnection(terminal: TxReply, logout: LogoutReply)

  predicate SoundCall(terms: Terms, call: Call) {
    && (call.Execute? ==> SoundParameters(terms, call.parameters))
    && (call.ExecuteMany? && call.batches.Some? ==> SoundBatches(terms, call.batches.value))
  }

  /** The answer of a call and the world after it; only fetches answer with rows. */
  datatype Moved = Moved(answer: Answer, world: World)

  /** The answer of a call that returns no rows. */
  function Raised(failure: Option<Error>): Answer {
    if failure.Some? then Failure(failure.value) else Success([])
  }

  /** A connection just opened: no cursor, no transaction, nothing sent. */
  function Initial(terms: Terms, autocommit: bool): World {
    World(terms, Ledger(Start(autocommit).tx, []), false, [])
  }

  // ---- the connection's slot ----

  /** A cursor other than this one has an unfinished execution. */
  predicate SlotTaken(w: World, i: nat) {
    exists k :: 0 <= k < |w.desks| && k != i && w.desks[k].shelf.Open?
  }

  predicate Running(w: World) {
    exists k :: 0 <= k < |w.desks| && w.desks[k].shelf.Open?
  }

  /** A result the connection discards is gone as if never executed. */
  function Quieted(d: Desk): Desk { if d.shelf.Open? then Reset(d) else d }

  function Shut(d: Desk): Desk { Cut(d).(closed := true) }

  /** The running execution, if there is one, is discarded. */
  function Quiet(w: World): World {
    w.(ledger := Dropped(w.ledger, Running(w)),
       desks := seq(|w.desks|, i requires 0 <= i < |w.desks| => Quieted(w.desks[i])))
  }

  // ---- steps ----

  function CommitStep(w: World, reply: TxReply): Moved {
    if w.closed then Moved(Failure(InterfaceError), w)
    else
      var quiet := Quiet(w);
      var (failure, ledger) := Committed(quiet.ledger, TerminalReply(reply));
      Moved(Raised(failure), quiet.(ledger := ledger))
  }

  function RollbackStep(w: World, reply: TxReply): Moved {
    if w.closed then Moved(Failure(InterfaceError), w)
    else
      var quiet := Quiet(w);
      var (failure, ledger) := RolledBack(quiet.ledger, TerminalReply(reply), false);
      Moved(Raised(failure), quiet.(ledger := ledger))
  }

  /** Switching to autocommit commits first, and only then switches. */
  function SwitchStep(w: World, value: bool, reply: TxReply): Moved {
    if w.closed then Moved(Failure(InterfaceError), w)
    else if value == w.ledger.tx.autocommit then Moved(Success([]), w)
    else
      var committed := if value then CommitStep(w, reply) else Moved(Success([]), w);
      if committed.answer.Failure? then committed
      else committed.(world := committed.world.(ledger := Enter(committed.world.ledger, SetMode(value))))
  }

  function CloseStep(w: World, reply: TxReply, logout: LogoutReply): Moved {
    if w.closed then Moved(Success([]), w)
    else
      var (failure, ledger) := RolledBack(Dropped(w.ledger, Running(w)), TerminalReply(reply), true);
      Moved(Raised(if failure.Some? then failure else LogoutError(logout)),
            World(w.terms, Enter(ledger, Logout), true,
                  seq(|w.desks|, i requires 0 <= i < |w.desks| => Shut(w.desks[i]))))
  }

  function NewCursorStep(w: World): Moved {
    if w.closed then Moved(Failure(InterfaceError), w)
    else Moved(Success([]), w.(desks := w.desks + [FRESH_DESK]))
  }

  /** A call on one cursor changes that cursor and the ledger. */
  function Placed(w: World, i: nat, d: Desk, l: Ledger): World
    requires i < |w.desks|
  {
    w.(desks := w.desks[i := d], ledger := l)
  }

  predicate Usable(w: World, i: nat)
    requires i < |w.desks|
  {
    !w.closed && !w.desks[i].closed
  }

  function ExecuteStep(w: World, i: nat, operation: string, p: Parameters, reply: ExecuteReply): Moved
    requires i < |w.desks| && SoundParameters(w.terms, p)
  {
    if !Usable(w, i) then Moved(Failure(InterfaceError), w)
    else
      var a := ExecuteOn(w.terms, w.desks[i], w.ledger, SlotTaken(w, i), operation, p, reply);
      Moved(Raised(a.failure), Placed(w, i, a.desk, a.ledger))
  }

  function ExecuteManyStep(w: World, i: nat, operation: string, batches: Option<seq<Batch>>): Moved
    requires i < |w.desks| && (batches.Some? ==> SoundBatches(w.terms, batches.value))
  {
    if !Usable(w, i) then Moved(Failure(InterfaceError), w)
    else
      var a := ExecuteManyOn(w.terms, w.desks[i], w.ledger, SlotTaken(w, i), operation, batches);
      Moved(Raised(a.failure), Placed(w, i, a.desk, a.ledger))
  }

  function FetchStep(w: World, i: nat, d: Demand): Moved
    requires i < |w.desks|
  {
    if !Usable(w, i) then Moved(Failure(InterfaceError), w)
    else
      var (answer, s) := Fetching.Fetch(Seated(w.desks[i], w.ledger), d);
      Moved(answer, Placed(w, i, Reseated(w.desks[i], s), s.ledger))
  }

  function SetArraysizeStep(w: World, i: nat, size: int): Moved
    requires i < |w.desks|
  {
    if size <= 0 then Moved(Failure(ProgrammingError), w)
    else Moved(Success([]), Placed(w, i, w.desks[i].(arraysize := size), w.ledger))
  }

  function CloseCursorStep(w: World, i: nat): Moved
    requires i < |w.desks|
  {
    var d := w.desks[i];
    Moved(Success([]), if d.closed then w else Placed(w, i, Shut(d), Dropped(w.ledger, d.shelf.Open?)))
  }

  /** The cursor a call is made on. */
  function CursorOf(call: Call): Option<nat> {
    if call.NewCursor? || call.Commit? || call.Rollback? || call.SetAutocommit? || call.CloseConnection? then None
    else Some(call.cursor)
  }

  /** One call; a call on a cursor that does not exist is no call at all. */
  function Step(w: World, call: Call): (m: Moved)
    requires SoundCall(w.terms, call)
    ensures m.world.terms == w.terms && |m.world.desks| >= |w.desks|
  {
    if CursorOf(call).Some? && CursorOf(call).value >= |w.desks| then Moved(Success([]), w)
    else
      match call
      case NewCursor => NewCursorStep(w)
      case Execute(i, operation, p, reply) => ExecuteStep(w, i, operation, p, reply)
      case ExecuteMany(i, operation, batches) => ExecuteManyStep(w, i, operation, batches)
      case Fetch(i, demand) => FetchStep(w, i, demand)
      case FetchDefault(i) => FetchStep(w, i, Demand.FetchMany(w.desks[i].arraysize))
      case SetArraysize(i, size) => SetArraysizeStep(w, i, size)
      case CloseCursor(i) => CloseCursorStep(w, i)
      case Commit(reply) => CommitStep(w, reply)
      case Rollback(reply) => RollbackStep(w, reply)
      case SetAutocommit(value, reply) => SwitchStep(w, value, reply)
      case CloseConnection(reply, logout) => CloseStep(w, reply, logout)
  }

  // ---- programs ----

  ghost predicate SoundProgram(terms: Terms, calls: seq<Call>) {
    forall call | call in calls :: SoundCall(terms, call)
  }

  datatype Played = Played(answers: seq<Answer>, world: World)

  /** A whole program, with the answer of every call. */
  ghost function Play(w: World, calls: seq<Call>): (p: Played)
    requires SoundProgram(w.terms, calls)
    ensures |p.answers| == |calls| && p.world.terms == w.terms && |p.world.desks| >= |w.desks|
  {
    if calls == [] then Played([], w)
    else
      var n := |calls| - 1;
      var before := Play(w, calls[..n]);
      assert calls[n] in calls;
      var m := Step(before.world, calls[n]);
      Played(before.answers + [m.answer], m.world)
  }
}
