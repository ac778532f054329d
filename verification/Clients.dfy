/** Arbitrary programs over one connection take exactly the steps of the machine in `Worlds`. */
module Clients {
  import opened Wrappers
  import opened ExecutionStreams
  import opened CursorStreams
  import opened Executions
  import opened DbApi
  import F = Fetching
  import T = Transactions
  import W = Worlds

  /** A connection with all the cursors it ever created, in order. */
  ghost predicate Kept(connection: Connection, made: seq<Cursor>)
    reads connection, connection.cursors, connection.Streams(), made
  {
    && connection.Valid()
    && (forall c | c in connection.cursors :: c in made)
    && (forall i, j :: 0 <= i < j < |made| ==> made[i] != made[j])
    && forall c | c in made :: c.connection == connection
         && (c in connection.cursors <==> !c.closed) && (c.closed ==> c.Idle())
  }

  ghost function DeskAt(connection: Connection, made: seq<Cursor>, i: nat): Desk
    requires Kept(connection, made) && i < |made|
    reads connection, connection.cursors, connection.Streams(), made
  {
    KnownDesk(connection, made, i);
    made[i].Desk()
  }

  /** The connection and its cursors are what the machine says they are. */
  ghost predicate Shows(connection: Connection, made: seq<Cursor>, w: W.World)
    requires Kept(connection, made)
    reads connection, connection.cursors, connection.Streams(), made
  {
    && w.terms == connection.terms && w.ledger == connection.Ledger() && w.closed == connection.closed
    && |w.desks| == |made|
    && forall i :: 0 <= i < |made| ==> w.desks[i] == DeskAt(connection, made, i)
  }

  lemma KnownDesk(connection: Connection, made: seq<Cursor>, i: nat)
    requires Kept(connection, made) && i < |made|
    ensures made[i].stream != null ==> made[i].stream in connection.Streams() && connection.active == made[i]
    ensures made[i].Known()
    ensures made[i].Desk().shelf.Open? <==> connection.active == made[i]
  {
    hide T.Run, T.Legal, QueryTail, WellEnded, F.FutureOf;
    assert made[i] in made;
  }

  /** The slot is taken for a cursor exactly when another one's result is open. */
  lemma SlotIsShown(connection: Connection, made: seq<Cursor>, w: W.World, i: nat)
    requires Kept(connection, made) && Shows(connection, made, w) && i < |made|
    ensures made[i].SlotTaken() <==> W.SlotTaken(w, i)
    ensures w.desks[i].shelf.Open? <==> connection.active == made[i]
    ensures W.Usable(w, i) <==> !made[i].closed
  {
    hide T.Run, T.Legal, QueryTail, WellEnded, F.FutureOf, Cursor.Desk;
    forall k | 0 <= k < |made| ensures w.desks[k].shelf.Open? <==> connection.active == made[k] {
      KnownDesk(connection, made, k);
    }
    assert made[i] in made;
    DeskIsClosed(connection, made, i);
    if connection.active != null {
      assert connection.active in made;
    }
  }

  lemma DeskIsClosed(connection: Connection, made: seq<Cursor>, i: nat)
    requires Kept(connection, made) && i < |made|
    ensures DeskAt(connection, made, i).closed == made[i].closed
  {
  }

  lemma RunningIsShown(connection: Connection, made: seq<Cursor>, w: W.World)
    requires Kept(connection, made) && Shows(connection, made, w)
    ensures W.Running(w) <==> connection.active != null
    ensures forall k :: 0 <= k < |made| ==> (w.desks[k].shelf.Open? <==> connection.active == made[k])
    ensures forall c | c in made && c != connection.active :: c.stream == null
  {
    hide T.Run, T.Legal, QueryTail, WellEnded, F.FutureOf, Cursor.Desk;
    forall k | 0 <= k < |made| ensures w.desks[k].shelf.Open? <==> connection.active == made[k] {
      KnownDesk(connection, made, k);
    }
    if connection.active != null {
      assert connection.active in made;
    }
  }

  ghost function Footprint(connection: Connection, made: seq<Cursor>): set<object>
    reads connection, connection.cursors
  {
    var cursors: set<object> := set c | c in made;
    var streams: set<object> := connection.Streams();
    {connection} + cursors + streams
  }

  /** What a call leaves behind, and answers, is what the machine's step `m` does. */
  twostate predicate Took(
    connection: Connection, made: seq<Cursor>, new made': seq<Cursor>, m: W.Moved, new answer: F.Answer)
    reads connection, connection.cursors, connection.Streams(), made, made'
  {
    && Kept(connection, made') && Shows(connection, made', m.world) && answer == m.answer
    && made <= made'
    && (forall c | c in made' :: c in made || fresh(c))
    && forall s | s in connection.Streams() :: s in old(connection.Streams()) || fresh(s)
  }

  /** Two cursors never hold streams at once. */
  lemma OneStream(connection: Connection, made: seq<Cursor>, i: nat)
    requires Kept(connection, made) && i < |made|
    ensures made[i].stream != null ==> forall k :: 0 <= k < |made| && k != i ==> made[k].stream == null
  {
    hide T.Run, T.Legal, QueryTail, WellEnded, F.FutureOf, Cursor.Desk;
    if made[i].stream != null {
      KnownDesk(connection, made, i);
      forall k | 0 <= k < |made| && k != i ensures made[k].stream == null {
        KnownDesk(connection, made, k);
      }
    }
  }

  // ---- calls on one cursor ----

  method PerformExecute(connection: Connection, made: seq<Cursor>, ghost w: W.World, i: nat,
    operation: string, p: Parameters, reply: ExecuteReply)
    returns (answer: F.Answer)
    requires Kept(connection, made) && Shows(connection, made, w) && i < |made|
    requires SoundParameters(connection.terms, p)
    modifies Footprint(connection, made)
    ensures Took(connection, made, made, W.ExecuteStep(w, i, operation, p, reply), answer)
  {
    hide Connection.Machine, Cursor.Settled, Cursor.Holding, Cursor.Shelf, ExecuteOn, SoundParameters, Cursor.Busy,
         Cursor.Running, W.SlotTaken, W.Usable;
    SlotIsShown(connection, made, w, i);
    OneStream(connection, made, i);
    var failure := made[i].Execute(operation, p, reply);
    answer := W.Raised(failure);
    assert forall k :: 0 <= k < |made| && k != i ==> DeskAt(connection, made, k) == w.desks[k];
  }

  method PerformExecuteMany(connection: Connection, made: seq<Cursor>, ghost w: W.World, i: nat,
    operation: string, batches: Option<seq<Batch>>)
    returns (answer: F.Answer)
    requires Kept(connection, made) && Shows(connection, made, w) && i < |made|
    requires batches.Some? ==> SoundBatches(connection.terms, batches.value)
    modifies Footprint(connection, made)
    ensures Took(connection, made, made, W.ExecuteManyStep(w, i, operation, batches), answer)
  {
    hide Connection.Machine, Cursor.Settled, Cursor.Holding, Cursor.Shelf, ExecuteManyOn, SoundBatches, W.SlotTaken,
         W.Usable;
    SlotIsShown(connection, made, w, i);
    OneStream(connection, made, i);
    var failure := made[i].ExecuteMany(operation, batches);
    answer := W.Raised(failure);
    assert forall k :: 0 <= k < |made| && k != i ==> DeskAt(connection, made, k) == w.desks[k];
  }

  method PerformFetchOne(connection: Connection, made: seq<Cursor>, ghost w: W.World, i: nat)
    returns (answer: F.Answer)
    requires Kept(connection, made) && Shows(connection, made, w) && i < |made|
    modifies Footprint(connection, made)
    ensures Took(connection, made, made, W.FetchStep(w, i, F.FetchOne), answer)
  {
    hide Connection.Machine, Cursor.Settled, Cursor.Holding, Cursor.Shelf, F.Fetch, W.SlotTaken, W.Usable;
    SlotIsShown(connection, made, w, i);
    OneStream(connection, made, i);
    var row := made[i].FetchOne();
    answer := Listed(row);
    assert forall k :: 0 <= k < |made| && k != i ==> DeskAt(connection, made, k) == w.desks[k];
  }

  method PerformFetchMany(connection: Connection, made: seq<Cursor>, ghost w: W.World, i: nat, size: Option<int>)
    returns (answer: F.Answer)
    requires Kept(connection, made) && Shows(connection, made, w) && i < |made|
    modifies Footprint(connection, made)
    ensures Took(connection, made, made,
                 W.FetchStep(w, i, F.FetchMany(if size.Some? then size.value else w.desks[i].arraysize)), answer)
  {
    hide Connection.Machine, Cursor.Settled, Cursor.Holding, Cursor.Shelf, F.Fetch, W.SlotTaken, W.Usable;
    SlotIsShown(connection, made, w, i);
    OneStream(connection, made, i);
    answer := made[i].FetchMany(size);
    assert forall k :: 0 <= k < |made| && k != i ==> DeskAt(connection, made, k) == w.desks[k];
  }

  method PerformFetchAll(connection: Connection, made: seq<Cursor>, ghost w: W.World, i: nat)
    returns (answer: F.Answer)
    requires Kept(connection, made) && Shows(connection, made, w) && i < |made|
    modifies Footprint(connection, made)
    ensures Took(connection, made, made, W.FetchStep(w, i, F.FetchAll), answer)
  {
    hide Connection.Machine, Cursor.Settled, Cursor.Holding, Cursor.Shelf, F.Fetch, W.SlotTaken, W.Usable;
    SlotIsShown(connection, made, w, i);
    OneStream(connection, made, i);
    answer := made[i].FetchAll();
    assert forall k :: 0 <= k < |made| && k != i ==> DeskAt(connection, made, k) == w.desks[k];
  }

  method PerformSetArraysize(connection: Connection, made: seq<Cursor>, ghost w: W.World, i: nat, size: int)
    returns (answer: F.Answer)
    requires Kept(connection, made) && Shows(connection, made, w) && i < |made|
    modifies Footprint(connection, made)
    ensures Took(connection, made, made, W.SetArraysizeStep(w, i, size), answer)
  {
    hide Connection.Machine, Cursor.Settled, Cursor.Holding, Cursor.Shelf, W.SlotTaken, W.Usable;
    SlotIsShown(connection, made, w, i);
    OneStream(connection, made, i);
    var failure := made[i].SetArraysize(size);
    answer := W.Raised(failure);
    assert forall k :: 0 <= k < |made| && k != i ==> DeskAt(connection, made, k) == w.desks[k];
  }

  method PerformCloseCursor(connection: Connection, made: seq<Cursor>, ghost w: W.World, i: nat)
    returns (answer: F.Answer)
    requires Kept(connection, made) && Shows(connection, made, w) && i < |made|
    modifies Footprint(connection, made)
    ensures Took(connection, made, made, W.CloseCursorStep(w, i), answer)
  {
    hide Connection.Machine, Cursor.Settled, Cursor.Holding, Cursor.Shelf, W.SlotTaken, W.Usable;
    SlotIsShown(connection, made, w, i);
    OneStream(connection, made, i);
    made[i].Close();
    answer := Success([]);
    assert forall k :: 0 <= k < |made| && k != i ==> DeskAt(connection, made, k) == w.desks[k];
  }

  // ---- calls on the connection ----

  method PerformCommit(connection: Connection, made: seq<Cursor>, ghost w: W.World, reply: TxReply)
    returns (answer: F.Answer)
    requires Kept(connection, made) && Shows(connection, made, w)
    modifies Footprint(connection, made)
    ensures Took(connection, made, made, W.CommitStep(w, reply), answer)
  {
    hide Connection.Machine, Cursor.Settled, Cursor.Holding, Cursor.Shelf, TerminalReply, Committed, Dropped,
         W.Running, Cursor.Desk, Reset, T.Enter;
    RunningIsShown(connection, made, w);
    ghost var active := connection.active;
    var failure := connection.Commit(reply);
    answer := W.Raised(failure);
    if !connection.closed {
      assert forall k :: 0 <= k < |made| && made[k] != active ==> DeskAt(connection, made, k) == w.desks[k];
      assert forall k :: 0 <= k < |made| && made[k] == active ==> DeskAt(connection, made, k) == Reset(w.desks[k]);
    }
  }

  method PerformRollback(connection: Connection, made: seq<Cursor>, ghost w: W.World, reply: TxReply)
    returns (answer: F.Answer)
    requires Kept(connection, made) && Shows(connection, made, w)
    modifies Footprint(connection, made)
    ensures Took(connection, made, made, W.RollbackStep(w, reply), answer)
  {
    hide Connection.Machine, Cursor.Settled, Cursor.Holding, Cursor.Shelf, TerminalReply, RolledBack, Dropped,
         W.Running, Cursor.Desk, Reset, T.Enter;
    RunningIsShown(connection, made, w);
    ghost var active := connection.active;
    var failure := connection.Rollback(reply);
    answer := W.Raised(failure);
    if !connection.closed {
      assert forall k :: 0 <= k < |made| && made[k] != active ==> DeskAt(connection, made, k) == w.desks[k];
      assert forall k :: 0 <= k < |made| && made[k] == active ==> DeskAt(connection, made, k) == Reset(w.desks[k]);
    }
  }

  method PerformSwitch(connection: Connection, made: seq<Cursor>, ghost w: W.World, value: bool, reply: TxReply)
    returns (answer: F.Answer)
    requires Kept(connection, made) && Shows(connection, made, w)
    modifies Footprint(connection, made)
    ensures Took(connection, made, made, W.SwitchStep(w, value, reply), answer)
  {
    hide Connection.Machine, Cursor.Settled, Cursor.Holding, Cursor.Shelf, TerminalReply, Committed, Dropped,
         W.Running, Cursor.Desk, Reset, T.Enter;
    RunningIsShown(connection, made, w);
    ghost var active := connection.active;
    ghost var mode := connection.autocommit;
    var failure := connection.SetAutocommit(value, reply);
    answer := W.Raised(failure);
    if !connection.closed && value && !mode {
      assert forall k :: 0 <= k < |made| && made[k] != active ==> DeskAt(connection, made, k) == w.desks[k];
      assert forall k :: 0 <= k < |made| && made[k] == active ==> DeskAt(connection, made, k) == Reset(w.desks[k]);
    } else {
      assert forall k :: 0 <= k < |made| ==> DeskAt(connection, made, k) == w.desks[k];
    }
  }

  method PerformClose(connection: Connection, made: seq<Cursor>, ghost w: W.World, reply: TxReply,
                      logout: LogoutReply)
    returns (answer: F.Answer)
    requires Kept(connection, made) && Shows(connection, made, w)
    modifies Footprint(connection, made)
    ensures Took(connection, made, made, W.CloseStep(w, reply, logout), answer)
  {
    hide Connection.Machine, Cursor.Settled, Cursor.Holding, Cursor.Shelf, TerminalReply, RolledBack, Dropped,
         W.Running, Cursor.Desk, Reset, T.Enter;
    RunningIsShown(connection, made, w);
    ghost var active := connection.active;
    ghost var ended, registered := connection.closed, connection.cursors;
    ClosedDesks(connection, made, w);
    var failure := connection.Close(reply, logout);
    answer := W.Raised(failure);
    if !ended {
      assert forall k :: 0 <= k < |made| && made[k] !in registered ==> DeskAt(connection, made, k) == w.desks[k];
      assert forall k :: 0 <= k < |made| && made[k] in registered ==>
                           DeskAt(connection, made, k) == W.Shut(w.desks[k]);
    }
  }

  /** A cursor that is no longer registered is shut already. */
  lemma ClosedDesks(connection: Connection, made: seq<Cursor>, w: W.World)
    requires Kept(connection, made) && Shows(connection, made, w)
    ensures forall k :: 0 <= k < |made| && made[k] !in connection.cursors ==>
                          made[k].stream == null && W.Shut(w.desks[k]) == w.desks[k]
  {
    hide Connection.Machine, Cursor.Settled, Cursor.Holding, Cursor.Shelf;
    forall k | 0 <= k < |made| && made[k] !in connection.cursors
      ensures made[k].stream == null && W.Shut(w.desks[k]) == w.desks[k]
    {
      assert made[k] in made;
      KnownDesk(connection, made, k);
    }
  }

  method PerformNewCursor(connection: Connection, made: seq<Cursor>, ghost w: W.World)
    returns (answer: F.Answer, made': seq<Cursor>)
    requires Kept(connection, made) && Shows(connection, made, w)
    modifies connection
    ensures Took(connection, made, made', W.NewCursorStep(w), answer)
  {
    hide Connection.Machine, Cursor.Settled, Cursor.Holding, Cursor.Shelf, Cursor.Desk;
    var r := connection.NewCursor();
    if r.Failure? {
      return Failure(r.error), made;
    }
    answer := Success([]);
    made' := made + [r.value];
    assert forall k :: 0 <= k < |made| ==> DeskAt(connection, made', k) == w.desks[k];
  }

  // ---- any call, any program ----

  method PerformOnCursor(connection: Connection, made: seq<Cursor>, ghost w: W.World, call: W.Call)
    returns (answer: F.Answer)
    requires Kept(connection, made) && Shows(connection, made, w) && W.SoundCall(connection.terms, call)
    requires W.CursorOf(call).Some? && call.cursor < |made|
    modifies Footprint(connection, made)
    ensures Took(connection, made, made, W.Step(w, call), answer)
  {
    hide Connection.Machine, Cursor.Settled, Cursor.Holding, Cursor.Shelf, Kept, W.ExecuteStep, W.ExecuteManyStep,
         W.FetchStep, W.SetArraysizeStep, W.CloseCursorStep;
    match call
    case Execute(i, operation, p, reply) => answer := PerformExecute(connection, made, w, i, operation, p, reply);
    case ExecuteMany(i, operation, batches) => answer := PerformExecuteMany(connection, made, w, i, operation, batches);
    case Fetch(i, FetchOne) => answer := PerformFetchOne(connection, made, w, i);
    case Fetch(i, FetchMany(size)) => answer := PerformFetchMany(connection, made, w, i, Some(size));
    case Fetch(i, FetchAll) => answer := PerformFetchAll(connection, made, w, i);
    case FetchDefault(i) => answer := PerformFetchMany(connection, made, w, i, None);
    case SetArraysize(i, size) => answer := PerformSetArraysize(connection, made, w, i, size);
    case CloseCursor(i) => answer := PerformCloseCursor(connection, made, w, i);
  }

  method Perform(connection: Connection, made: seq<Cursor>, ghost w: W.World, call: W.Call)
    returns (answer: F.Answer, made': seq<Cursor>)
    requires Kept(connection, made) && Shows(connection, made, w) && W.SoundCall(connection.terms, call)
    modifies Footprint(connection, made)
    ensures Took(connection, made, made', W.Step(w, call), answer)
  {
    hide Connection.Machine, Cursor.Settled, Cursor.Holding, Cursor.Shelf, Kept, W.ExecuteStep, W.ExecuteManyStep,
         W.FetchStep, W.SetArraysizeStep, W.CloseCursorStep, W.CommitStep, W.RollbackStep, W.SwitchStep, W.CloseStep,
         W.NewCursorStep;
    made' := made;
    match call
    case NewCursor => answer, made' := PerformNewCursor(connection, made, w);
    case Commit(reply) => answer := PerformCommit(connection, made, w, reply);
    case Rollback(reply) => answer := PerformRollback(connection, made, w, reply);
    case SetAutocommit(value, reply) => answer := PerformSwitch(connection, made, w, value, reply);
    case CloseConnection(reply, logout) => answer := PerformClose(connection, made, w, reply, logout);
    case _ =>
      if call.cursor < |made| {
        answer := PerformOnCursor(connection, made, w, call);
      } else {
        answer := Success([]);
      }
  }

  lemma LogIsLegal(connection: Connection, made: seq<Cursor>)
    requires Kept(connection, made)
    ensures T.Legal(connection.firstMode, connection.log)
  {
    hide T.Legal, Cursor.Settled, Cursor.Holding;
  }

  lemma NothingMade(connection: Connection, terms: Terms, autocommit: bool)
    requires connection.Valid() && !connection.closed && connection.cursors == {} && connection.terms == terms
    requires connection.Ledger() == T.Ledger(T.Start(autocommit).tx, [])
    ensures Kept(connection, []) && Shows(connection, [], W.Initial(terms, autocommit))
  {
    hide Connection.Machine;
  }

  /**
   * Whatever a program does with a connection and whatever the server answers: every call
   * finds and leaves the connection valid, answers as the machine of `Worlds` does and
   * leaves connection and cursors as it says, and the log of the run is legal.
   */
  method Program(terms: Terms, autocommit: bool, calls: seq<W.Call>)
    returns (connection: Connection, made: seq<Cursor>, answers: seq<F.Answer>)
    requires W.SoundProgram(terms, calls)
    ensures fresh(connection) && Kept(connection, made) && T.Legal(autocommit, connection.log)
    ensures var p := W.Play(W.Initial(terms, autocommit), calls);
            answers == p.answers && Shows(connection, made, p.world)
  {
    hide Connection.Machine, Cursor.Settled, Cursor.Holding, Cursor.Shelf, W.Step, W.SoundCall, Shows;
    connection := new Connection(terms, autocommit);
    made, answers := [], [];
    ghost var w := W.Initial(terms, autocommit);
    NothingMade(connection, terms, autocommit);
    for i := 0 to |calls|
      invariant Kept(connection, made) && Shows(connection, made, w)
      invariant connection.firstMode == autocommit && connection.terms == terms
      invariant fresh(Footprint(connection, made))
      invariant W.SoundProgram(terms, calls[..i])
      invariant W.Play(W.Initial(terms, autocommit), calls[..i]) == W.Played(answers, w)
    {
      assert calls[i] in calls;
      var answer: F.Answer;
      answer, made := Perform(connection, made, w, calls[i]);
      w := W.Step(w, calls[i]).world;
      answers := answers + [answer];
      assert calls[..i + 1][..i] == calls[..i];
    }
    assert calls[..|calls|] == calls;
    LogIsLegal(connection, made);
  }
}
