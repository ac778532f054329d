/** The log of every program is legal, so that what holds of every legal log holds of every program. */
module LogTheorems {
  import opened Wrappers
  import opened Errors
  import opened Protocol
  import opened Transcripts
  import opened Transactions
  import opened Requests
  import opened Fetching
  import opened CursorStreams
  import opened Executions
  import opened ExecutionTheorems
  import opened Worlds
  import opened WorldTheorems
  import TT = TransactionTheorems

  /** The log is legal, and leads to these fields, this running execution, and this closedness. */
  ghost predicate Booked(mode: bool, l: Ledger, running: Option<string>, closed: bool) {
    Legal(mode, l.log) && Run(Start(mode), l.log).value == Session(l.tx, running, closed)
  }

  lemma Entered(mode: bool, l: Ledger, running: Option<string>, closed: bool, a: Action)
    requires Booked(mode, l, running, closed) && Allowed(Session(l.tx, running, closed), a)
    ensures var s := After(Session(l.tx, running, closed), a); Booked(mode, Enter(l, a), s.running, s.closed)
  {
    hide Allowed, Effect;
    assert (l.log + [a])[..|l.log|] == l.log;
  }

  // ---- one execution ----

  lemma AdmitIsBooked(mode: bool, info: ServerInfo, l: Ledger, begin: BeginReply, running: Option<string>)
    requires Booked(mode, l, running, false)
    ensures var a := AdmitUnder(info, l, begin);
            && Booked(mode, a.ledger, running, false)
            && (a.id.Success? ==> Admit(a.ledger.tx) == UseId(a.id.value))
  {
    hide Booked, Translate;
    if Admit(l.tx).NeedsBegin? {
      Entered(mode, l, running, false, Action.Begin(BegunId(begin)));
    }
  }

  lemma GivenUpIsBooked(mode: bool, l: Ledger, id: string, error: Error)
    requires Booked(mode, l, Some(id), false)
    ensures Booked(mode, Enter(l, Action.Fail(error)), None, false)
  {
    hide Booked, Effect;
    Entered(mode, l, Some(id), false, Action.Fail(error));
  }

  lemma FinishIsBooked(mode: bool, l: Ledger, id: string, status: Status)
    requires Booked(mode, l, Some(id), false)
    requires DecodeStatus(status).Success? && ObserveEnd(l.tx, status, id).Success?
    ensures Booked(mode, Enter(l, Action.Finish(status)), None, false)
  {
    hide Booked, Effect, ObserveEnd, DecodeStatus;
    Entered(mode, l, Some(id), false, Action.Finish(status));
  }

  /** What is running while a result is open, and nothing else. */
  function RunningOf(shelf: Shelf): Option<string> {
    if shelf.Open? then Some(shelf.executedAs) else None
  }

  lemma {:induction false} OpeningIsBooked(mode: bool, t: Transcript, id: string, rowcount: int, l: Ledger)
    requires Booked(mode, l, Some(id), false) && WellEnded(t) && (Opening(t.events) || EndTail(t.events))
    ensures var s := OpenExecution(t, id, rowcount, l).state; Booked(mode, s.ledger, RunningOf(s.shelf), false)
    decreases |t.events|
  {
    hide Booked, FutureOf, UpdateRowcount, Enter, ObserveEnd, DecodeStatus, Translate, QueryTail;
    if t.events == [] {
      GivenUpIsBooked(mode, l, id, if t.verdict.Failed? then t.verdict.error else ProtocolError);
    } else {
      match t.events[0]
      case Updated(_, counts) =>
        OpeningIsBooked(mode, Transcript(t.events[1..], t.verdict), id, UpdateRowcount(counts), l);
      case Ended(outcome) =>
        if ObserveEnd(l.tx, outcome.status, id).Success? {
          FinishIsBooked(mode, l, id, outcome.status);
        } else {
          GivenUpIsBooked(mode, l, id, ObserveEnd(l.tx, outcome.status, id).error);
        }
      case _ =>
    }
  }

  lemma LaunchCallIsBooked(mode: bool, cfg: Config, l: Ledger, call: CallReply, id: string)
    requires Booked(mode, l, None, false) && Admit(l.tx) == UseId(id) && SingleResult(cfg)
    ensures var s := LaunchCall(cfg, l, call, id).state; Booked(mode, s.ledger, RunningOf(s.shelf), false)
  {
    hide Booked, OpenExecution, Admit, Enter, Opening, WellEnded, Read, SingleResult;
    Entered(mode, l, None, false, Action.Execute(id));
    var sent := Enter(l, Action.Execute(id));
    match call
    case CallFailed(details) => GivenUpIsBooked(mode, sent, id, RpcError(details));
    case CallAccepted(responses, ending) =>
      SingleResultOpening(cfg, responses, ending);
      OpeningIsBooked(mode, Whole(cfg, responses, ending), id, -1, sent);
  }

  lemma DroppedIsBooked(mode: bool, l: Ledger, running: Option<string>)
    requires Booked(mode, l, running, false)
    ensures Booked(mode, Dropped(l, running.Some?), None, false)
  {
    hide Booked, Effect;
    if running.Some? {
      Entered(mode, l, running, false, Discard);
    }
  }

  /** What is running on the connection: this cursor's execution, or another's. */
  function RunningAt(d: Desk, others: Option<string>): Option<string> {
    if d.shelf.Open? then Some(d.shelf.executedAs) else others
  }

  lemma ExecuteOnIsBooked(
    mode: bool, terms: Terms, d: Desk, l: Ledger, others: Option<string>, operation: string, p: Parameters,
    reply: ExecuteReply)
    requires SoundParameters(terms, p) && (others.Some? ==> !d.shelf.Open?)
    requires Booked(mode, l, RunningAt(d, others), false)
    ensures var a := ExecuteOn(terms, d, l, others.Some?, operation, p, reply);
            Booked(mode, a.ledger, RunningAt(a.desk, others), false)
  {
    hide Booked, AdmitUnder, LaunchCall, Refusal, SoundArgument, AcceptedOutputFeatures, Reader, Dropped, Translate,
         Admit;
    if operation != "" && !p.NotPositional? {
      if d.shelf.Open? {
        DroppedIsBooked(mode, l, RunningAt(d, others));
      } else {
        NothingDropped(l);
      }
      var l' := Dropped(l, d.shelf.Open?);
      AdmitIsBooked(mode, terms.info, l', reply.begin, others);
      var admitted := AdmitUnder(terms.info, l', reply.begin);
      if admitted.id.Success? && others.None? {
        SingleReader(terms);
        LaunchCallIsBooked(mode, Reader(terms), admitted.ledger, reply.call, admitted.id.value);
      }
    }
  }

  lemma NothingDropped(l: Ledger)
    ensures Dropped(l, false) == l
  {
  }

  lemma ExecuteForCountIsBooked(
    mode: bool, terms: Terms, d: Desk, l: Ledger, others: Option<string>, operation: string, b: Batch)
    requires SoundParameters(terms, b.parameters) && DeskOk(terms, d) && !d.closed
    requires (others.Some? ==> !d.shelf.Open?) && Booked(mode, l, RunningAt(d, others), false)
    ensures var a := ExecuteForCount(terms, d, l, others.Some?, operation, b);
            Booked(mode, a.ledger, RunningAt(a.desk, others), false)
  {
    hide Booked, ExecuteOn, Dropped, DeskOk;
    var a := ExecuteOn(terms, d, l, others.Some?, operation, b.parameters, b.reply);
    ExecuteOnIsBooked(mode, terms, d, l, others, operation, b.parameters, b.reply);
    ExecuteOnFits(terms, d, l, others.Some?, operation, b.parameters, b.reply);
    if a.desk.shelf.Open? {
      DroppedIsBooked(mode, a.ledger, RunningAt(a.desk, others));
    }
  }

  lemma {:induction false} ExecuteEachIsBooked(
    mode: bool, terms: Terms, d: Desk, l: Ledger, others: Option<string>, operation: string, batches: seq<Batch>,
    total: int)
    requires SoundBatches(terms, batches) && DeskOk(terms, d) && !d.closed
    requires (others.Some? ==> !d.shelf.Open?) && Booked(mode, l, RunningAt(d, others), false)
    ensures var a := ExecuteEach(terms, d, l, others.Some?, operation, batches, total);
            Booked(mode, a.ledger, RunningAt(a.desk, others), false)
    decreases |batches|
  {
    hide Booked, ExecuteForCount, DeskOk, SoundParameters, Plus;
    if batches != [] {
      assert batches[0] in batches;
      ExecuteForCountIsBooked(mode, terms, d, l, others, operation, batches[0]);
      ExecuteForCountFits(terms, d, l, others.Some?, operation, batches[0]);
      var a := ExecuteForCount(terms, d, l, others.Some?, operation, batches[0]);
      if a.failure.None? {
        ExecuteEachIsBooked(
          mode, terms, a.desk, a.ledger, others, operation, batches[1..], Plus(total, a.desk.rowcount));
      }
    }
  }

  lemma ExecuteManyOnIsBooked(
    mode: bool, terms: Terms, d: Desk, l: Ledger, others: Option<string>, operation: string,
    batches: Option<seq<Batch>>)
    requires (batches.Some? ==> SoundBatches(terms, batches.value)) && DeskOk(terms, d) && !d.closed
    requires (others.Some? ==> !d.shelf.Open?) && Booked(mode, l, RunningAt(d, others), false)
    ensures var a := ExecuteManyOn(terms, d, l, others.Some?, operation, batches);
            Booked(mode, a.ledger, RunningAt(a.desk, others), false)
  {
    hide Booked, ExecuteEach, DeskOk, SoundBatches, Dropped;
    if batches.Some? && batches.value != [] {
      ExecuteEachIsBooked(mode, terms, d, l, others, operation, batches.value, 0);
    } else if batches.Some? && d.shelf.Open? {
      DroppedIsBooked(mode, l, RunningAt(d, others));
    } else {
      NothingDropped(l);
    }
  }

  // ---- fetching ----

  lemma FetchIsBooked(mode: bool, terms: Terms, d: Desk, l: Ledger, others: Option<string>, demand: Demand)
    requires DeskOk(terms, d) && Booked(mode, l, RunningAt(d, others), false)
    requires others.Some? ==> !d.shelf.Open?
    ensures var s := Fetching.Fetch(Seated(d, l), demand).1;
            Booked(mode, s.ledger, RunningAt(Reseated(d, s), others), false)
  {
    hide Booked, Enter, ObserveEnd, DecodeStatus, ReportFits, Translate;
    if d.shelf.Open? {
      match d.shelf.future.tail
      case Concludes(outcome) =>
        if ObserveEnd(l.tx, outcome.status, d.shelf.executedAs).Success? {
          FinishIsBooked(mode, l, d.shelf.executedAs, outcome.status);
        } else {
          GivenUpIsBooked(
            mode, l, d.shelf.executedAs, ObserveEnd(l.tx, outcome.status, d.shelf.executedAs).error);
        }
      case Breaks(error) => GivenUpIsBooked(mode, l, d.shelf.executedAs, error);
    }
  }

  // ---- ending transactions ----

  lemma CommittedIsBooked(mode: bool, l: Ledger, reply: Result<Status, Error>)
    requires Booked(mode, l, None, false)
    ensures var (failure, l') := Committed(l, reply);
            Booked(mode, l', None, false) && (failure.None? ==> l'.tx.id.None?)
  {
    hide Booked, Translate;
    if l.tx.id.Some? && l.tx.state != StateRollbackOnly && !l.tx.commitAttempted {
      Entered(mode, l, None, false, Action.Commit(l.tx.id.value, reply));
    }
  }

  lemma RolledBackIsBooked(mode: bool, l: Ledger, reply: Result<Status, Error>, closing: bool)
    requires Booked(mode, l, None, false)
    ensures Booked(mode, RolledBack(l, reply, closing).1, None, false)
  {
    hide Booked, Translate;
    if l.tx.id.Some? && (closing ==> l.tx.state in {StateActive, StateRollbackOnly}) {
      Entered(mode, l, None, false, Action.Rollback(l.tx.id.value, reply, closing));
    }
  }

  // ---- every program ----

  /** The execution that runs is the one whose result is open, on whichever cursor. */
  ghost predicate RunsAs(w: World, running: Option<string>) {
    && (running.Some? <==> Running(w))
    && forall i :: 0 <= i < |w.desks| && w.desks[i].shelf.Open? ==> running == Some(w.desks[i].shelf.executedAs)
  }

  ghost predicate Logged(mode: bool, w: World, running: Option<string>) {
    WorldOk(w) && Booked(mode, w.ledger, running, w.closed) && RunsAs(w, running)
  }

  /** What runs on the other cursors. */
  function OthersRunning(w: World, i: nat, running: Option<string>): Option<string>
    requires i < |w.desks|
  {
    if w.desks[i].shelf.Open? then None else running
  }

  lemma OthersAreTheSlot(mode: bool, w: World, i: nat, running: Option<string>)
    requires Logged(mode, w, running) && i < |w.desks|
    ensures var others := OthersRunning(w, i, running);
            && (others.Some? <==> SlotTaken(w, i))
            && (others.Some? ==> !w.desks[i].shelf.Open?)
            && RunningAt(w.desks[i], others) == running
            && DeskOk(w.terms, w.desks[i])
  {
    hide Booked, DeskOk;
  }

  /** One cursor's call leaves the machine logged if it leaves the ledger booked. */
  lemma PlacedIsLogged(mode: bool, w: World, i: nat, running: Option<string>, d: Desk, l: Ledger)
    requires Logged(mode, w, running) && i < |w.desks| && !w.closed && WorldOk(Placed(w, i, d, l))
    requires Booked(mode, l, RunningAt(d, OthersRunning(w, i, running)), false)
    ensures Logged(mode, Placed(w, i, d, l), RunningAt(d, OthersRunning(w, i, running)))
  {
    hide Booked, DeskOk;
    var w' := Placed(w, i, d, l);
    forall k | 0 <= k < |w.desks| && k != i ensures w'.desks[k] == w.desks[k] {}
    if d.shelf.Open? {
      assert w'.desks[i].shelf.Open?;
    } else if k :| 0 <= k < |w.desks| && k != i && w.desks[k].shelf.Open? {
      assert w'.desks[k].shelf.Open?;
    }
  }

  lemma CursorStepIsLogged(mode: bool, w: World, running: Option<string>, call: Call) returns (after: Option<string>)
    requires Logged(mode, w, running) && SoundCall(w.terms, call)
    requires CursorOf(call).Some? && CursorOf(call).value < |w.desks|
    ensures Logged(mode, Step(w, call).world, after)
  {
    hide Logged, WorldOk, ExecuteOn, ExecuteManyOn, Fetching.Fetch, SlotTaken, Placed, Booked, DeskOk, Dropped,
         SoundParameters, SoundBatches;
    var i := CursorOf(call).value;
    var d, others := w.desks[i], OthersRunning(w, i, running);
    after := running;
    LoggedIsOk(mode, w, running);
    StepKeepsOk(w, call);
    OthersAreTheSlot(mode, w, i, running);
    match call
    case Execute(_, operation, p, reply) =>
      if Usable(w, i) {
        ExecuteOnIsBooked(mode, w.terms, d, w.ledger, others, operation, p, reply);
        var a := ExecuteOn(w.terms, d, w.ledger, others.Some?, operation, p, reply);
        PlacedIsLogged(mode, w, i, running, a.desk, a.ledger);
        after := RunningAt(a.desk, others);
      }
    case ExecuteMany(_, operation, batches) =>
      if Usable(w, i) {
        ExecuteManyOnIsBooked(mode, w.terms, d, w.ledger, others, operation, batches);
        var a := ExecuteManyOn(w.terms, d, w.ledger, others.Some?, operation, batches);
        PlacedIsLogged(mode, w, i, running, a.desk, a.ledger);
        after := RunningAt(a.desk, others);
      }
    case Fetch(_, demand) => after := FetchStepIsLogged(mode, w, running, i, demand);
    case FetchDefault(_) => after := FetchStepIsLogged(mode, w, running, i, Demand.FetchMany(d.arraysize));
    case SetArraysize(_, size) => SetArraysizeIsLogged(mode, w, running, i, size);
    case CloseCursor(_) => after := CloseCursorIsLogged(mode, w, running, i);
  }

  lemma LoggedIsOk(mode: bool, w: World, running: Option<string>)
    requires Logged(mode, w, running)
    ensures WorldOk(w) && Booked(mode, w.ledger, running, w.closed)
  {
  }

  lemma FetchStepIsLogged(mode: bool, w: World, running: Option<string>, i: nat, demand: Demand)
    returns (after: Option<string>)
    requires Logged(mode, w, running) && i < |w.desks|
    ensures Logged(mode, FetchStep(w, i, demand).world, after)
  {
    hide Logged, WorldOk, Fetching.Fetch, Placed, Booked, DeskOk;
    after := running;
    LoggedIsOk(mode, w, running);
    FetchStepKeepsOk(w, i, demand);
    OthersAreTheSlot(mode, w, i, running);
    if Usable(w, i) {
      var d, others := w.desks[i], OthersRunning(w, i, running);
      FetchIsBooked(mode, w.terms, d, w.ledger, others, demand);
      var s := Fetching.Fetch(Seated(d, w.ledger), demand).1;
      PlacedIsLogged(mode, w, i, running, Reseated(d, s), s.ledger);
      after := RunningAt(Reseated(d, s), others);
    }
  }

  lemma SetArraysizeIsLogged(mode: bool, w: World, running: Option<string>, i: nat, size: int)
    requires Logged(mode, w, running) && i < |w.desks|
    ensures Logged(mode, SetArraysizeStep(w, i, size).world, running)
  {
    hide Booked, DeskOk;
    ArraysizeOk(w, i, size);
    var w' := SetArraysizeStep(w, i, size).world;
    assert forall k :: 0 <= k < |w.desks| ==> w'.desks[k].shelf == w.desks[k].shelf;
  }

  lemma CloseCursorIsLogged(mode: bool, w: World, running: Option<string>, i: nat) returns (after: Option<string>)
    requires Logged(mode, w, running) && i < |w.desks|
    ensures Logged(mode, CloseCursorStep(w, i).world, after)
  {
    hide Booked, DeskOk, Dropped, Placed, WorldOk;
    CloseCursorOk(w, i);
    OthersAreTheSlot(mode, w, i, running);
    after := running;
    var d := w.desks[i];
    if !d.closed {
      OpenOnOpenConnection(w, i);
      if d.shelf.Open? {
        DroppedIsBooked(mode, w.ledger, running);
      } else {
        NothingDropped(w.ledger);
      }
      after := OthersRunning(w, i, running);
      PlacedIsLogged(mode, w, i, running, Shut(d), Dropped(w.ledger, d.shelf.Open?));
    }
  }

  lemma OpenOnOpenConnection(w: World, i: nat)
    requires WorldOk(w) && i < |w.desks| && !w.desks[i].closed
    ensures !w.closed
  {
    hide DeskOk;
  }

  /** With the running execution discarded, nothing runs. */
  lemma QuietIsLogged(mode: bool, w: World, running: Option<string>)
    requires Logged(mode, w, running) && !w.closed
    ensures Booked(mode, Quiet(w).ledger, None, false)
    ensures forall l :: Booked(mode, l, None, false) ==> Logged(mode, Quiet(w).(ledger := l), None)
  {
    hide Booked, DeskOk, Dropped, WorldOk;
    DroppedIsBooked(mode, w.ledger, running);
    QuietOk(w);
    LedgersAside(Quiet(w));
  }

  lemma CommitStepIsLogged(mode: bool, w: World, running: Option<string>, reply: TxReply)
    requires Logged(mode, w, running) && !w.closed
    ensures Logged(mode, CommitStep(w, reply).world, None)
    ensures CommitStep(w, reply).answer.Success? ==> CommitStep(w, reply).world.ledger.tx.id.None?
  {
    hide Logged, Booked, Quiet, Committed, TerminalReply;
    QuietIsLogged(mode, w, running);
    CommittedIsBooked(mode, Quiet(w).ledger, TerminalReply(reply));
    QuietKeepsTerms(w);
    var (failure, l) := Committed(Quiet(w).ledger, TerminalReply(reply));
    assert CommitStep(w, reply) == Moved(Raised(failure), Quiet(w).(ledger := l));
  }

  lemma QuietKeepsTerms(w: World)
    ensures Quiet(w).terms == w.terms && Quiet(w).closed == w.closed
    ensures Quiet(w).ledger.tx == w.ledger.tx
  {
  }

  lemma RollbackStepIsLogged(mode: bool, w: World, running: Option<string>, reply: TxReply)
    requires Logged(mode, w, running) && !w.closed
    ensures Logged(mode, RollbackStep(w, reply).world, None)
  {
    hide Logged, Booked, Quiet, RolledBack, TerminalReply;
    QuietIsLogged(mode, w, running);
    RolledBackIsBooked(mode, Quiet(w).ledger, TerminalReply(reply), false);
  }

  lemma ModeIsLogged(mode: bool, w: World, running: Option<string>, value: bool)
    requires Logged(mode, w, running) && !w.closed && w.ledger.tx.autocommit != value
    requires value ==> w.ledger.tx.id.None? && running.None?
    ensures Logged(mode, w.(ledger := Enter(w.ledger, SetMode(value))), running)
  {
    hide Booked, WorldOk;
    Entered(mode, w.ledger, running, false, SetMode(value));
    LedgersAside(w);
  }

  lemma CommittedMode(l: Ledger, reply: Result<Status, Error>)
    ensures Committed(l, reply).1.tx.autocommit == l.tx.autocommit
  {
  }

  lemma SwitchStepIsLogged(mode: bool, w: World, running: Option<string>, value: bool, reply: TxReply)
    returns (after: Option<string>)
    requires Logged(mode, w, running) && !w.closed
    ensures Logged(mode, SwitchStep(w, value, reply).world, after)
  {
    hide Logged, Booked, Quiet, Committed, TerminalReply, Enter;
    after := running;
    if value != w.ledger.tx.autocommit && value {
      after := None;
      CommitStepIsLogged(mode, w, running, reply);
      QuietKeepsTerms(w);
      CommittedMode(Quiet(w).ledger, TerminalReply(reply));
      if CommitStep(w, reply).answer.Success? {
        ModeIsLogged(mode, CommitStep(w, reply).world, None, value);
      }
    } else if value != w.ledger.tx.autocommit {
      ModeIsLogged(mode, w, running, value);
    }
  }

  lemma CloseStepIsLogged(mode: bool, w: World, running: Option<string>, reply: TxReply, logout: LogoutReply)
    requires Logged(mode, w, running) && !w.closed
    ensures Logged(mode, CloseStep(w, reply, logout).world, None)
  {
    hide Booked, DeskOk, Dropped, WorldOk, RolledBack, TerminalReply, Enter;
    CloseStepKeepsOk(w, reply, logout);
    DroppedIsBooked(mode, w.ledger, running);
    RolledBackIsBooked(mode, Dropped(w.ledger, running.Some?), TerminalReply(reply), true);
    var l := RolledBack(Dropped(w.ledger, running.Some?), TerminalReply(reply), true).1;
    Entered(mode, l, None, false, Logout);
  }

  lemma NewCursorIsLogged(mode: bool, w: World, running: Option<string>)
    requires Logged(mode, w, running)
    ensures Logged(mode, NewCursorStep(w).world, running)
  {
    hide Booked, DeskOk, WorldOk;
    if !w.closed {
      NewCursorOk(w);
      var w' := NewCursorStep(w).world;
      if k :| 0 <= k < |w.desks| && w.desks[k].shelf.Open? {
        assert w'.desks[k].shelf.Open?;
      }
    }
  }

  /** Every call keeps the log legal and in step with the fields and the open result. */
  lemma StepIsLogged(mode: bool, w: World, running: Option<string>, call: Call) returns (after: Option<string>)
    requires Logged(mode, w, running) && SoundCall(w.terms, call)
    ensures Logged(mode, Step(w, call).world, after)
  {
    hide Logged, ExecuteStep, ExecuteManyStep, FetchStep, SetArraysizeStep, CloseCursorStep, CommitStep, RollbackStep,
         SwitchStep, CloseStep, NewCursorStep;
    after := running;
    if CursorOf(call).Some? {
      if CursorOf(call).value < |w.desks| {
        after := CursorStepIsLogged(mode, w, running, call);
      }
    } else if call.NewCursor? {
      NewCursorIsLogged(mode, w, running);
    } else if w.closed {
      ClosedStays(w, call);
    } else {
      match call
      case Commit(reply) =>
        after := None;
        CommitStepIsLogged(mode, w, running, reply);
      case Rollback(reply) =>
        after := None;
        RollbackStepIsLogged(mode, w, running, reply);
      case SetAutocommit(value, reply) => after := SwitchStepIsLogged(mode, w, running, value, reply);
      case CloseConnection(reply, logout) =>
        after := None;
        CloseStepIsLogged(mode, w, running, reply, logout);
    }
  }

  lemma ClosedStays(w: World, call: Call)
    requires SoundCall(w.terms, call) && w.closed && CursorOf(call).None?
    ensures Step(w, call).world == w
  {
    hide ExecuteStep, ExecuteManyStep, FetchStep;
  }

  lemma {:induction false} PlayIsLogged(mode: bool, w: World, running: Option<string>, calls: seq<Call>)
    returns (after: Option<string>)
    requires Logged(mode, w, running) && SoundProgram(w.terms, calls)
    ensures Logged(mode, Play(w, calls).world, after)
  {
    hide Logged, Step;
    after := running;
    if calls != [] {
      var n := |calls| - 1;
      assert calls[n] in calls;
      after := PlayIsLogged(mode, w, running, calls[..n]);
      after := StepIsLogged(mode, Play(w, calls[..n]).world, after, calls[n]);
    }
  }

  /**
   * The log of every program is legal, and the connection's fields are what it leads to: all
   * that holds of legal logs holds of every program.
   */
  lemma EveryProgramIsLegal(terms: Terms, autocommit: bool, calls: seq<Call>)
    requires SoundProgram(terms, calls)
    ensures var w := Play(Initial(terms, autocommit), calls).world;
            && Legal(autocommit, w.ledger.log)
            && At(autocommit, w.ledger.log, |w.ledger.log|).tx == w.ledger.tx
  {
    hide Play, WorldOk;
    InitialIsLogged(terms, autocommit);
    var running := PlayIsLogged(autocommit, Initial(terms, autocommit), None, calls);
    var log := Play(Initial(terms, autocommit), calls).world.ledger.log;
    assert log[..|log|] == log;
  }

  /**
   * In every program: an identifier is never empty; none is held in autocommit; and one
   * that is not held is neither known to be in any state nor past a commit.
   */
  lemma HeldIdentifiersAreSound(terms: Terms, autocommit: bool, calls: seq<Call>)
    requires SoundProgram(terms, calls)
    ensures var tx := Play(Initial(terms, autocommit), calls).world.ledger.tx;
            && tx.id != Some("")
            && (tx.autocommit ==> tx.id.None?)
            && (tx.id.None? ==> tx.state == StateNone && !tx.commitAttempted)
  {
    hide Play, Legal, At;
    EveryProgramIsLegal(terms, autocommit, calls);
    var log := Play(Initial(terms, autocommit), calls).world.ledger.log;
    AlwaysConsistent(autocommit, log, |log|);
  }

  lemma InitialIsLogged(terms: Terms, autocommit: bool)
    ensures Logged(autocommit, Initial(terms, autocommit), None)
  {
  }

  /** In every program, between any two commits sent another transaction was begun. */
  lemma NoProgramRetriesACommit(terms: Terms, autocommit: bool, calls: seq<Call>, i: nat, j: nat)
    requires SoundProgram(terms, calls)
    requires var log := Play(Initial(terms, autocommit), calls).world.ledger.log;
             i < j < |log| && log[i].Commit? && log[j].Commit?
    ensures var log := Play(Initial(terms, autocommit), calls).world.ledger.log;
            exists k :: i < k < j && TT.Begins(log[k])
  {
    hide Play;
    EveryProgramIsLegal(terms, autocommit, calls);
    TT.CommitOncePerTransaction(autocommit, Play(Initial(terms, autocommit), calls).world.ledger.log, i, j);
  }
}
