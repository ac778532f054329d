/** Properties of every program over one connection, whatever the server answers. */
module WorldTheorems {
  import opened Wrappers
  import opened Protocol
  import opened Transactions
  import opened Requests
  import opened Fetching
  import opened CursorStreams
  import opened Executions
  import opened ExecutionTheorems
  import opened Worlds
  import opened OperationTheorems

  // ---- every reachable world ----

  /** At most one cursor has an unfinished execution, and only on an open connection. */
  ghost predicate WorldOk(w: World) {
    && (forall i :: 0 <= i < |w.desks| ==> DeskOk(w.terms, w.desks[i]))
    && (forall i, j :: 0 <= i < j < |w.desks| ==> !(w.desks[i].shelf.Open? && w.desks[j].shelf.Open?))
    && (w.closed ==> forall i :: 0 <= i < |w.desks| ==> w.desks[i].closed)
  }

  lemma QuietOk(w: World)
    requires WorldOk(w)
    ensures WorldOk(Quiet(w)) && !Running(Quiet(w))
  {
    hide ReportFits, TailFits;
    NothingReportedFits(w.terms);
    forall i | 0 <= i < |w.desks| ensures DeskOk(w.terms, Quiet(w).desks[i]) && !Quiet(w).desks[i].shelf.Open? {
      assert DeskOk(w.terms, w.desks[i]);
    }
  }

  lemma ShutOk(terms: Terms, d: Desk)
    requires DeskOk(terms, d)
    ensures DeskOk(terms, Shut(d)) && !Shut(d).shelf.Open? && Shut(d).closed
  {
    QueriedMayReport(terms, d.report);
  }

  lemma PlacedOk(w: World, i: nat, d: Desk, l: Ledger)
    requires WorldOk(w) && i < |w.desks| && DeskOk(w.terms, d)
    requires d.shelf.Open? ==> !SlotTaken(w, i)
    requires w.closed ==> d.closed
    ensures WorldOk(Placed(w, i, d, l))
  {
    hide DeskOk;
    var w' := Placed(w, i, d, l);
    forall k | 0 <= k < |w.desks| ensures DeskOk(w.terms, w'.desks[k]) {
      assert DeskOk(w.terms, w.desks[k]);
    }
  }

  lemma FetchOk(terms: Terms, d: Desk, l: Ledger, demand: Demand)
    requires DeskOk(terms, d) && !d.closed
    ensures var s := Fetching.Fetch(Seated(d, l), demand).1;
            DeskOk(terms, Reseated(d, s)) && (s.shelf.Open? ==> d.shelf.Open?)
  {
    hide ReportFits, ObserveEnd, Enter;
    NothingReportedFits(terms);
    QueriedMayReport(terms, NO_REPORT);
  }

  lemma ArraysizeOk(w: World, i: nat, size: int)
    requires WorldOk(w) && i < |w.desks|
    ensures WorldOk(SetArraysizeStep(w, i, size).world)
  {
    hide ReportFits, TailFits;
    if size > 0 {
      assert DeskOk(w.terms, w.desks[i]);
      PlacedOk(w, i, w.desks[i].(arraysize := size), w.ledger);
    }
  }

  lemma FetchStepKeepsOk(w: World, i: nat, demand: Demand)
    requires WorldOk(w) && i < |w.desks|
    ensures WorldOk(FetchStep(w, i, demand).world)
  {
    hide DeskOk, Fetching.Fetch, Placed;
    var d := w.desks[i];
    if Usable(w, i) {
      assert DeskOk(w.terms, d);
      FetchOk(w.terms, d, w.ledger, demand);
      var s := Fetching.Fetch(Seated(d, w.ledger), demand).1;
      PlacedOk(w, i, Reseated(d, s), s.ledger);
    }
  }

  lemma ExecuteStepKeepsOk(w: World, i: nat, operation: string, p: Parameters, reply: ExecuteReply)
    requires WorldOk(w) && i < |w.desks| && SoundParameters(w.terms, p)
    ensures WorldOk(ExecuteStep(w, i, operation, p, reply).world)
  {
    hide DeskOk, ExecuteOn, Placed;
    var d := w.desks[i];
    if Usable(w, i) {
      assert DeskOk(w.terms, d);
      ExecuteOnFits(w.terms, d, w.ledger, SlotTaken(w, i), operation, p, reply);
      var a := ExecuteOn(w.terms, d, w.ledger, SlotTaken(w, i), operation, p, reply);
      PlacedOk(w, i, a.desk, a.ledger);
    }
  }

  lemma ExecuteManyStepKeepsOk(w: World, i: nat, operation: string, batches: Option<seq<Batch>>)
    requires WorldOk(w) && i < |w.desks| && (batches.Some? ==> SoundBatches(w.terms, batches.value))
    ensures WorldOk(ExecuteManyStep(w, i, operation, batches).world)
  {
    hide DeskOk, ExecuteManyOn, Placed;
    var d := w.desks[i];
    if Usable(w, i) {
      assert DeskOk(w.terms, d);
      ExecuteManyOnFits(w.terms, d, w.ledger, SlotTaken(w, i), operation, batches);
      var a := ExecuteManyOn(w.terms, d, w.ledger, SlotTaken(w, i), operation, batches);
      PlacedOk(w, i, a.desk, a.ledger);
    }
  }

  lemma CloseStepKeepsOk(w: World, reply: TxReply, logout: LogoutReply)
    requires WorldOk(w)
    ensures WorldOk(CloseStep(w, reply, logout).world)
  {
    hide DeskOk, RolledBack, Shut;
    forall i | 0 <= i < |w.desks|
      ensures DeskOk(w.terms, Shut(w.desks[i])) && !Shut(w.desks[i]).shelf.Open? && Shut(w.desks[i]).closed
    {
      ShutOk(w.terms, w.desks[i]);
    }
  }

  /** Every call keeps the world sound, whatever the server answers. */
  lemma StepKeepsOk(w: World, call: Call)
    requires WorldOk(w) && SoundCall(w.terms, call)
    ensures WorldOk(Step(w, call).world)
  {
    hide WorldOk, ExecuteStep, ExecuteManyStep, FetchStep, SetArraysizeStep, CloseStep, Placed, Quiet, TerminalReply,
         Committed, RolledBack, SlotTaken, Running;
    if CursorOf(call).None? || CursorOf(call).value < |w.desks| {
      match call
      case NewCursor =>
        if !w.closed {
          NewCursorOk(w);
        }
      case Execute(i, operation, p, reply) => ExecuteStepKeepsOk(w, i, operation, p, reply);
      case ExecuteMany(i, operation, batches) => ExecuteManyStepKeepsOk(w, i, operation, batches);
      case Fetch(i, demand) => FetchStepKeepsOk(w, i, demand);
      case FetchDefault(i) => FetchStepKeepsOk(w, i, Demand.FetchMany(w.desks[i].arraysize));
      case SetArraysize(i, size) => ArraysizeOk(w, i, size);
      case CloseCursor(i) => CloseCursorOk(w, i);
      case CloseConnection(reply, logout) => CloseStepKeepsOk(w, reply, logout);
      case _ =>
        QuietOk(w);
        LedgersAside(w);
        LedgersAside(Quiet(w));
    }
  }

  /** The ledger plays no part in it. */
  lemma LedgersAside(w: World)
    ensures WorldOk(w) ==> forall l :: WorldOk(w.(ledger := l))
  {
    hide DeskOk;
  }

  lemma NewCursorOk(w: World)
    requires WorldOk(w) && !w.closed
    ensures WorldOk(w.(desks := w.desks + [FRESH_DESK]))
  {
    hide ReportFits, TailFits;
    NothingReportedFits(w.terms);
    forall i | 0 <= i < |w.desks| ensures DeskOk(w.terms, w.desks[i]) {}
  }

  lemma CloseCursorOk(w: World, i: nat)
    requires WorldOk(w) && i < |w.desks|
    ensures WorldOk(CloseCursorStep(w, i).world)
  {
    hide DeskOk, Shut, Placed;
    var d := w.desks[i];
    if !d.closed {
      ShutOk(w.terms, d);
      PlacedOk(w, i, Shut(d), Dropped(w.ledger, d.shelf.Open?));
    }
  }

  lemma {:induction false} PlayKeepsOk(w: World, calls: seq<Call>)
    requires WorldOk(w) && SoundProgram(w.terms, calls)
    ensures WorldOk(Play(w, calls).world)
  {
    hide WorldOk, Step;
    if calls != [] {
      var n := |calls| - 1;
      assert calls[n] in calls;
      PlayKeepsOk(w, calls[..n]);
      StepKeepsOk(Play(w, calls[..n]).world, calls[n]);
    }
  }

  /**
   * In every program the connection never has two unfinished executions, none once it or
   * the cursor is closed, and every cursor's report is one its reader may give.
   */
  lemma EveryProgramIsSound(terms: Terms, autocommit: bool, calls: seq<Call>)
    requires SoundProgram(terms, calls)
    ensures WorldOk(Play(Initial(terms, autocommit), calls).world)
  {
    PlayKeepsOk(Initial(terms, autocommit), calls);
  }

  /**
   * A cursor reports a partial result only if the feature was accepted and the caller
   * allowed it, after a query all of whose rows were read, and with a cause; what it
   * reports as complete has no cause.
   */
  lemma PartialIsNeverSilentAtTheCursor(terms: Terms, autocommit: bool, calls: seq<Call>, i: nat)
    requires SoundProgram(terms, calls) && i < |Play(Initial(terms, autocommit), calls).world.desks|
    ensures var d := Play(Initial(terms, autocommit), calls).world.desks[i];
            && (d.report.completeness == Some(Partial) ==>
                  && PARTIAL_RESULTS in terms.info.features && terms.allowPartial
                  && d.shelf.Exhausted? && exists w | w in d.report.warnings :: w.role == PartialResultCause)
            && (d.report.completeness == Some(Complete) ==>
                  && PARTIAL_RESULTS in terms.info.features
                  && forall w | w in d.report.warnings :: w.role != PartialResultCause)
            && (d.report.completeness.None? ==> d.report.warnings == [] && d.report.omitted == 0)
  {
    hide Play, TailFits;
    EveryProgramIsSound(terms, autocommit, calls);
    var w := Play(Initial(terms, autocommit), calls).world;
    assert DeskOk(w.terms, w.desks[i]);
  }

  // ---- rows handed out by one cursor ----

  predicate Executes(call: Call, i: nat) { (call.Execute? || call.ExecuteMany?) && call.cursor == i }

  ghost predicate Untouched(calls: seq<Call>, i: nat) {
    forall call | call in calls :: !Executes(call, i)
  }

  /** All rows that calls on one cursor handed out, in order. */
  function HandedTo(i: nat, calls: seq<Call>, answers: seq<Answer>): seq<Row>
    requires |answers| == |calls|
  {
    if calls == [] then []
    else
      var n := |calls| - 1;
      HandedTo(i, calls[..n], answers[..n]) + if CursorOf(calls[n]) == Some(i) then RowsIn(answers[n]) else []
  }

  predicate OpenAt(w: World, i: nat) { i < |w.desks| && w.desks[i].shelf.Open? }

  lemma RestsUntilExecuted(w: World, i: nat, call: Call)
    requires SoundCall(w.terms, call) && !OpenAt(w, i) && !Executes(call, i)
    ensures !OpenAt(Step(w, call).world, i)
    ensures CursorOf(call) == Some(i) ==> RowsIn(Step(w, call).answer) == []
  {
    hide ExecuteOn, ExecuteManyOn, TerminalReply, Committed, RolledBack, SlotTaken, Running, Settle;
  }

  /** A cursor with no open result hands out nothing until it executes again. */
  lemma {:induction false} SilentUntilExecuted(w: World, i: nat, calls: seq<Call>)
    requires SoundProgram(w.terms, calls) && !OpenAt(w, i) && Untouched(calls, i)
    ensures !OpenAt(Play(w, calls).world, i)
    ensures HandedTo(i, calls, Play(w, calls).answers) == []
  {
    hide Step, OpenAt, Executes;
    if calls != [] {
      var n := |calls| - 1;
      assert calls[n] in calls;
      SilentUntilExecuted(w, i, calls[..n]);
      RestsUntilExecuted(Play(w, calls[..n]).world, i, calls[n]);
      assert Play(w, calls).answers[..n] == Play(w, calls[..n]).answers;
    }
  }

  /** A commit, a rollback, a switch to autocommit, or the end of the connection. */
  predicate Ends(w: World, call: Call) {
    || call.Commit? || call.Rollback? || call.CloseConnection?
    || (call.SetAutocommit? && call.value && !w.ledger.tx.autocommit)
  }

  lemma EndingQuiets(w: World, call: Call, i: nat)
    requires WorldOk(w) && SoundCall(w.terms, call) && Ends(w, call)
    ensures !OpenAt(Step(w, call).world, i)
  {
    hide TerminalReply, Committed, RolledBack, Running, ReportFits, TailFits;
    if i < |w.desks| {
      assert DeskOk(w.terms, w.desks[i]);
    }
  }

  /**
   * In every program: after a commit, a rollback or a switch to autocommit, successful or
   * not, no cursor hands out a row until its own next execution, whatever the other
   * cursors do meanwhile.
   */
  lemma NothingOldAfterEnding(
    terms: Terms, autocommit: bool, before: seq<Call>, ending: Call, after: seq<Call>, i: nat)
    requires SoundProgram(terms, before) && SoundCall(terms, ending) && SoundProgram(terms, after)
    requires Ends(Play(Initial(terms, autocommit), before).world, ending) && Untouched(after, i)
    ensures var w := Step(Play(Initial(terms, autocommit), before).world, ending).world;
            HandedTo(i, after, Play(w, after).answers) == []
  {
    hide Step, OpenAt, Executes, WorldOk, Ends;
    EveryProgramIsSound(terms, autocommit, before);
    var w := Play(Initial(terms, autocommit), before).world;
    EndingQuiets(w, ending, i);
    SilentUntilExecuted(Step(w, ending).world, i, after);
  }

  // ---- rows belong to their execution ----

  /** How a cursor stands that began with these rows ahead and handed out some of them. */
  predicate Followed(f: Future, start: FetchState, d: Desk, l: Ledger, handed: seq<Row>) {
    if d.closed || d.shelf.NoResult? then handed <= f.rows && !d.shelf.Open?
    else Conserved(f, start, Seated(d, l), handed)
  }

  lemma FollowedPrefix(f: Future, start: FetchState, d: Desk, l: Ledger, handed: seq<Row>)
    requires Followed(f, start, d, l, handed)
    ensures handed <= f.rows
  {
  }

  /** Neither the ledger nor the array size matters, and giving the rest up keeps the prefix. */
  lemma FollowedAside(f: Future, start: FetchState, d: Desk, l: Ledger, handed: seq<Row>)
    requires Followed(f, start, d, l, handed)
    ensures handed + [] == handed
    ensures forall l' :: Followed(f, start, d, l', handed)
    ensures forall l', n :: Followed(f, start, d.(arraysize := n), l', handed)
    ensures forall l' :: Followed(f, start, Quieted(d), l', handed)
    ensures forall l' :: Followed(f, start, Shut(d), l', handed)
  {
    FollowedPrefix(f, start, d, l, handed);
  }

  lemma FollowedFetch(w: World, i: nat, demand: Demand, f: Future, start: FetchState, handed: seq<Row>)
    requires i < |w.desks| && Followed(f, start, w.desks[i], w.ledger, handed)
    ensures var m := FetchStep(w, i, demand);
            Followed(f, start, m.world.desks[i], m.world.ledger, handed + RowsIn(m.answer))
  {
    hide Conserved, Settle;
    var d := w.desks[i];
    assert handed + [] == handed;
    if Usable(w, i) && !d.shelf.NoResult? {
      OneMoreFetch(f, start, Seated(d, w.ledger), handed, demand);
      var (answer, s) := Fetching.Fetch(Seated(d, w.ledger), demand);
      FetchLeavesAResult(Seated(d, w.ledger), demand);
      assert Seated(Reseated(d, s), s.ledger) == s;
    }
  }

  lemma FetchLeavesAResult(s: FetchState, demand: Demand)
    ensures Fetching.Fetch(s, demand).1.shelf.NoResult? <==> s.shelf.NoResult?
  {
  }

  lemma FollowedStep(w: World, i: nat, call: Call, f: Future, start: FetchState, handed: seq<Row>)
    requires SoundCall(w.terms, call) && i < |w.desks| && !Executes(call, i)
    requires Followed(f, start, w.desks[i], w.ledger, handed)
    ensures var m := Step(w, call);
            Followed(f, start, m.world.desks[i], m.world.ledger,
                     handed + if CursorOf(call) == Some(i) then RowsIn(m.answer) else [])
  {
    hide ExecuteOn, ExecuteManyOn, TerminalReply, Committed, RolledBack, SlotTaken, Running, Fetching.Fetch,
         Followed, Quieted, Shut;
    FollowedAside(f, start, w.desks[i], w.ledger, handed);
    match call
    case Fetch(_, demand) =>
      if call.cursor == i { FollowedFetch(w, i, demand, f, start, handed); }
    case FetchDefault(_) =>
      if call.cursor == i { FollowedFetch(w, i, Demand.FetchMany(w.desks[i].arraysize), f, start, handed); }
    case _ =>
  }

  lemma {:induction false} FollowedPlay(w: World, i: nat, calls: seq<Call>, f: Future, start: FetchState)
    requires SoundProgram(w.terms, calls) && i < |w.desks| && Untouched(calls, i)
    requires Followed(f, start, w.desks[i], w.ledger, [])
    ensures var p := Play(w, calls);
            Followed(f, start, p.world.desks[i], p.world.ledger, HandedTo(i, calls, p.answers))
  {
    hide Step, Followed, Executes;
    if calls != [] {
      var n := |calls| - 1;
      assert calls[n] in calls;
      FollowedPlay(w, i, calls[..n], f, start);
      var before := Play(w, calls[..n]);
      assert Play(w, calls).answers[..n] == before.answers;
      FollowedStep(before.world, i, calls[n], f, start, HandedTo(i, calls[..n], before.answers));
    }
  }

  lemma AttemptOpens(w: World, call: Call)
    requires WorldOk(w) && SoundCall(w.terms, call) && Tried(w, call)
    ensures var d := Step(w, call).world.desks[call.cursor];
            if d.shelf.Open? then
              && Step(w, call).answer.Success? && !d.closed
              && OpensWell(w.terms, call.reply.call, d.shelf.future)
            else d.shelf.NoResult?
  {
    hide DeskOk, OpensWell, ExecuteOn;
    var i := call.cursor;
    assert DeskOk(w.terms, w.desks[i]);
    ExecuteOnFits(w.terms, w.desks[i], w.ledger, SlotTaken(w, i), call.operation, call.parameters, call.reply);
    DeskIsShut(w.terms, w.desks[i]);
  }

  lemma DeskIsShut(terms: Terms, d: Desk)
    requires DeskOk(terms, d)
    ensures d.closed ==> !d.shelf.Open?
  {
  }

  /**
   * In every program, from an execution on until the cursor's next one: the rows it handed
   * out are the first ones the server streamed in reply. While the result is open, those
   * still pending are the others; once it is exhausted, there are no others, the row count
   * is their number and the report is the stream's. Commits, switches of the mode, failures
   * and the other cursors make no difference.
   */
  lemma RowsBelongToTheirExecution(
    terms: Terms, autocommit: bool, before: seq<Call>, execution: Call, after: seq<Call>)
    requires SoundProgram(terms, before) && SoundCall(terms, execution) && SoundProgram(terms, after)
    requires Tried(Play(Initial(terms, autocommit), before).world, execution)
    requires Untouched(after, execution.cursor)
    ensures var w := Step(Play(Initial(terms, autocommit), before).world, execution).world;
            var p := Play(w, after);
            var handed := HandedTo(execution.cursor, after, p.answers);
            var streamed := StreamRows(terms, execution.reply.call);
            var d := p.world.desks[execution.cursor];
            && handed <= streamed
            && (d.shelf.Open? ==> handed + d.shelf.future.rows == streamed)
            && (d.shelf.Exhausted? && !d.closed ==>
                  && handed == streamed && d.rowcount == |handed|
                  && w.desks[execution.cursor].shelf.Open?
                  && w.desks[execution.cursor].shelf.future.tail.Concludes?
                  && d.report == ReportOf(w.desks[execution.cursor].shelf.future.tail.outcome))
  {
    hide Step, Play, WorldOk, Usable, HandedTo, Untouched, StreamRows, TailFits, SoundProgram;
    EveryProgramIsSound(terms, autocommit, before);
    var w0 := Play(Initial(terms, autocommit), before).world;
    AttemptOpens(w0, execution);
    var w, i := Step(w0, execution).world, execution.cursor;
    var d := w.desks[i];
    if d.shelf.Open? {
      FollowedPlay(w, i, after, d.shelf.future, Seated(d, w.ledger));
      var p := Play(w, after);
      FollowedPrefix(d.shelf.future, Seated(d, w.ledger), p.world.desks[i], p.world.ledger,
                     HandedTo(i, after, p.answers));
    } else {
      SilentAfterNothing(w, i, after);
    }
  }

  /** A cursor left without a result has none until its next execution. */
  lemma {:induction false} SilentAfterNothing(w: World, i: nat, calls: seq<Call>)
    requires SoundProgram(w.terms, calls) && i < |w.desks| && w.desks[i].shelf.NoResult? && Untouched(calls, i)
    ensures Play(w, calls).world.desks[i].shelf.NoResult?
    ensures HandedTo(i, calls, Play(w, calls).answers) == []
  {
    hide Step, HandedTo, Executes;
    SilentUntilExecuted(w, i, calls);
    if calls != [] {
      var n := |calls| - 1;
      assert calls[n] in calls;
      SilentAfterNothing(w, i, calls[..n]);
      NoResultStays(Play(w, calls[..n]).world, i, calls[n]);
    }
  }

  lemma NoResultStays(w: World, i: nat, call: Call)
    requires SoundCall(w.terms, call) && i < |w.desks| && w.desks[i].shelf.NoResult? && !Executes(call, i)
    ensures Step(w, call).world.desks[i].shelf.NoResult?
  {
    hide ExecuteOn, ExecuteManyOn, TerminalReply, Committed, RolledBack, SlotTaken, Running, Settle;
  }
}
