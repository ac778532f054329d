/** Properties of every log of transaction calls, whatever the server replies. */
module TransactionTheorems {
  import opened Wrappers
  import opened Errors
  import opened Transactions

  predicate Begins(a: Action) { a.Begin? && a.begun.Success? }

  // ---- brackets ----

  /** The status or error that lets a held identifier go: it names it, in a terminal state. */
  predicate Terminates(a: Action, id: string) {
    match a
    case Commit(sent, Success(status)) => sent == id && status == Status(id, StateCommitted)
    case Rollback(sent, Success(status), _) => sent == id && status == Status(id, StateRolledBack)
    case Commit(_, Failure(error)) => TerminalError(error, id)
    case Rollback(_, Failure(error), closing) => !closing && TerminalError(error, id)
    case Fail(error) => TerminalError(error, id)
    case _ => false
  }

  predicate TerminalError(error: Error, id: string) {
    && error.RpcError?
    && error.details.transactionId == Some(id)
    && error.details.transactionState in {Some(StateCommitted), Some(StateRolledBack)}
  }

  /** The identifier the log itself says is open: begun, and not yet terminated. */
  function OpenBracket(log: seq<Action>): Option<string> {
    if log == [] then None else BracketAfter(OpenBracket(log[..|log| - 1]), log[|log| - 1])
  }

  function BracketAfter(before: Option<string>, a: Action): Option<string> {
    if Begins(a) then Some(a.begun.value)
    else if before.Some? && Terminates(a, before.value) then None
    else before
  }

  lemma HeldStep(s: Session, a: Action)
    requires Consistent(s) && Allowed(s, a)
    ensures After(s, a).tx.id == BracketAfter(s.tx.id, a)
  {
  }

  /** The held identifier is always the one the log has open. */
  lemma {:induction false} HeldIsOpenBracket(autocommit: bool, log: seq<Action>, n: nat)
    requires Legal(autocommit, log) && n <= |log|
    ensures At(autocommit, log, n).tx.id == OpenBracket(log[..n])
  {
    hide BracketAfter, Consistent, Allowed, After;
    if n == 0 {
      assert log[..0] == [];
    } else {
      HeldIsOpenBracket(autocommit, log, n - 1);
      AlwaysConsistent(autocommit, log, n - 1);
      StepOf(autocommit, log, n - 1);
      assert log[..n][..n - 1] == log[..n - 1] && log[..n][n - 1] == log[n - 1];
      HeldStep(At(autocommit, log, n - 1), log[n - 1]);
    }
  }

  /**
   * Every legal log is well bracketed: a transaction is begun only when none is open,
   * executions go out under the open one, or under the empty identifier when none is
   * open, and commits and rollbacks name the open one.
   */
  lemma WellBracketed(autocommit: bool, log: seq<Action>, n: nat)
    requires Legal(autocommit, log) && n < |log|
    ensures var open := OpenBracket(log[..n]);
            match log[n]
            case Begin(_) => open.None? && !At(autocommit, log, n).tx.autocommit
            case Execute(id) =>
              if At(autocommit, log, n).tx.autocommit then id == "" && open.None? else id != "" && open == Some(id)
            case Commit(id, _) => open == Some(id)
            case Rollback(id, _, _) => open == Some(id)
            case _ => true
  {
    StepOf(autocommit, log, n);
    HeldIsOpenBracket(autocommit, log, n);
    AlwaysConsistent(autocommit, log, n);
  }

  // ---- commits ----

  /** While no transaction is begun, a commit once sent stays sent, or its identifier is gone. */
  lemma {:induction false} CommitStaysAttempted(autocommit: bool, log: seq<Action>, i: nat, j: nat)
    requires Legal(autocommit, log) && i < j <= |log| && log[i].Commit?
    requires forall k :: i < k < j ==> !Begins(log[k])
    ensures var tx := At(autocommit, log, j).tx; tx.commitAttempted || tx.id.None?
    decreases j
  {
    StepOf(autocommit, log, j - 1);
    AlwaysConsistent(autocommit, log, j - 1);
    if i < j - 1 {
      CommitStaysAttempted(autocommit, log, i, j - 1);
    }
  }

  /** Between any two commits another transaction was begun: no commit is ever repeated. */
  lemma CommitOncePerTransaction(autocommit: bool, log: seq<Action>, i: nat, j: nat)
    requires Legal(autocommit, log) && i < j < |log| && log[i].Commit? && log[j].Commit?
    ensures exists k :: i < k < j && Begins(log[k])
  {
    if forall k :: i < k < j ==> !Begins(log[k]) {
      CommitStaysAttempted(autocommit, log, i, j);
      StepOf(autocommit, log, j);
    }
  }

  /** After a commit that did not end the transaction, nothing executes until something does. */
  lemma {:induction false} NoExecuteAfterOpenCommit(autocommit: bool, log: seq<Action>, i: nat, j: nat)
    requires Legal(autocommit, log) && i < j < |log| && log[i].Commit? && log[j].Execute?
    ensures exists k :: i <= k < j && Terminates(log[k], log[i].id)
  {
    if forall k :: i <= k < j ==> !Terminates(log[k], log[i].id) {
      UnterminatedStaysAttempted(autocommit, log, i, j);
      StepOf(autocommit, log, j);
      AlwaysConsistent(autocommit, log, j);
    }
  }

  lemma {:induction false} UnterminatedStaysAttempted(autocommit: bool, log: seq<Action>, i: nat, j: nat)
    requires Legal(autocommit, log) && i < j <= |log| && log[i].Commit?
    requires forall k :: i <= k < j ==> !Terminates(log[k], log[i].id)
    ensures var tx := At(autocommit, log, j).tx; tx.commitAttempted && tx.id == Some(log[i].id)
    decreases j
  {
    StepOf(autocommit, log, j - 1);
    AlwaysConsistent(autocommit, log, j - 1);
    if i < j - 1 {
      UnterminatedStaysAttempted(autocommit, log, i, j - 1);
    }
  }

  // ---- rollback-only ----

  /**
   * From the moment ROLLBACK_ONLY is recorded until a rollback is sent or the session is
   * closed, the state stays recorded and neither an execution nor a commit goes out.
   */
  lemma {:induction false} RollbackOnlyPersists(autocommit: bool, log: seq<Action>, i: nat, j: nat)
    requires Legal(autocommit, log) && i <= j <= |log|
    requires At(autocommit, log, i).tx.state == StateRollbackOnly
    requires forall k :: i <= k < j ==> !log[k].Rollback? && !log[k].Logout?
    ensures At(autocommit, log, j).tx == At(autocommit, log, i).tx
    ensures forall k :: i <= k < j ==> !log[k].Execute? && !log[k].Commit?
    decreases j
  {
    if i < j {
      RollbackOnlyPersists(autocommit, log, i, j - 1);
      AlwaysConsistent(autocommit, log, j - 1);
      StepOf(autocommit, log, j - 1);
    }
  }

  // ---- the session's end ----

  /** Logging out is the last thing a log holds. */
  lemma LogoutIsLast(autocommit: bool, log: seq<Action>, i: nat)
    requires Legal(autocommit, log) && i < |log| && log[i].Logout?
    ensures i == |log| - 1
  {
    StepOf(autocommit, log, i);
    if i + 1 < |log| {
      StepOf(autocommit, log, i + 1);
    }
  }

  // ---- switching autocommit off under a running execution ----

  /** An execution sent in autocommit cannot finish once autocommit is off. */
  lemma SwitchedExecutionCannotFinish(autocommit: bool, log: seq<Action>, n: nat)
    requires Legal(autocommit, log) && n < |log|
    requires At(autocommit, log, n).running == Some("") && !At(autocommit, log, n).tx.autocommit
    ensures !log[n].Finish?
  {
    StepOf(autocommit, log, n);
  }

  /** An execution's end is accepted exactly when it reports the mode and transaction it ran in. */
  lemma FinishExactly(s: Session, status: Status)
    requires Consistent(s) && !s.closed && s.running.Some?
    ensures Allowed(s, Finish(status)) <==>
              if s.tx.autocommit then status == Status("", StateNone)
              else s.running.value != "" && status.id == s.running.value
                   && status.state in {StateActive, StateRollbackOnly}
  {
  }

  // ---- the recorded state against the held identifier ----

  /** The reply that leaves NONE recorded while the identifier is still held. */
  predicate RecordsNone(a: Action, id: string) {
    match a
    case Commit(_, Success(status)) => status.state == StateNone
    case Rollback(_, Success(status), _) => status.state == StateNone
    case Commit(_, Failure(error)) => NoneError(error, id)
    case Rollback(_, Failure(error), closing) => !closing && NoneError(error, id)
    case Fail(error) => NoneError(error, id)
    case _ => false
  }

  predicate NoneError(error: Error, id: string) {
    && error.RpcError?
    && error.details.transactionId == Some(id)
    && error.details.transactionState == Some(StateNone)
  }

  /** An entry that leaves the identifier held and the recorded state as it is. */
  predicate Mute(a: Action, id: string) {
    match a
    case Execute(_) => true
    case Discard => true
    case SetMode(_) => true
    case Logout => true
    case Rollback(_, Failure(_), closing) => closing
    case Fail(error) =>
      error.RpcError? ==>
        && (error.details.transactionId != Some(id) || error.details.transactionState.None?)
        && error.details.sqlExecuted == Some(false)
    case _ => false
  }

  lemma NoneStep(s: Session, a: Action)
    requires Consistent(s) && s.tx.id.Some? && Allowed(s, a)
    ensures After(s, a).tx.id.Some? && After(s, a).tx.state == StateNone <==>
              RecordsNone(a, s.tx.id.value) || (s.tx.state == StateNone && Mute(a, s.tx.id.value))
  {
  }

  lemma NoneKeeps(s: Session, a: Action)
    requires Consistent(s) && s.tx.id.Some? && Allowed(s, a)
    requires RecordsNone(a, s.tx.id.value) || Mute(a, s.tx.id.value)
    ensures After(s, a).tx.id == s.tx.id
  {
  }

  /** Entry `k` recorded NONE for the identifier open there, and every entry since is mute about it. */
  ghost predicate LastRecordsNone(log: seq<Action>, k: nat, n: nat)
    requires n <= |log|
  {
    && k < n
    && OpenBracket(log[..k]).Some?
    && RecordsNone(log[k], OpenBracket(log[..k]).value)
    && forall m :: k < m < n ==> Mute(log[m], OpenBracket(log[..k]).value)
  }

  /** Such an entry leaves NONE beside the identifier. */
  lemma {:induction false} EntryLeavesNone(autocommit: bool, log: seq<Action>, k: nat, n: nat)
    requires Legal(autocommit, log) && n <= |log| && LastRecordsNone(log, k, n)
    ensures At(autocommit, log, n).tx.state == StateNone && At(autocommit, log, n).tx.id == OpenBracket(log[..k])
    decreases n
  {
    hide After, Allowed, Mute, RecordsNone, OpenBracket, At, Consistent, Legal;
    HeldIsOpenBracket(autocommit, log, n - 1);
    AlwaysConsistent(autocommit, log, n - 1);
    StepOf(autocommit, log, n - 1);
    if k < n - 1 {
      EntryLeavesNone(autocommit, log, k, n - 1);
    }
    NoneStep(At(autocommit, log, n - 1), log[n - 1]);
    NoneKeeps(At(autocommit, log, n - 1), log[n - 1]);
  }

  /** And nothing else does. */
  lemma {:induction false} NoneHasEntry(autocommit: bool, log: seq<Action>, n: nat) returns (k: nat)
    requires Legal(autocommit, log) && n <= |log|
    requires At(autocommit, log, n).tx.id.Some? && At(autocommit, log, n).tx.state == StateNone
    ensures LastRecordsNone(log, k, n)
  {
    hide After, Allowed, Mute, RecordsNone, OpenBracket, Consistent, Legal, Run;
    if n == 0 {
      assert log[..0] == [];
      assert false by { StartHoldsNothing(autocommit, log); }
    } else {
      HeldIsOpenBracket(autocommit, log, n - 1);
      AlwaysConsistent(autocommit, log, n - 1);
      StepOf(autocommit, log, n - 1);
      var s := At(autocommit, log, n - 1);
      if s.tx.id.None? {
        NothingHeldStep(s, log[n - 1]);
        assert false;
      } else {
        NoneStep(s, log[n - 1]);
        if RecordsNone(log[n - 1], s.tx.id.value) {
          k := n - 1;
        } else {
          k := NoneHasEntry(autocommit, log, n - 1);
          EntryLeavesNone(autocommit, log, k, n - 1);
        }
      }
    }
  }

  lemma StartHoldsNothing(autocommit: bool, log: seq<Action>)
    requires Legal(autocommit, log)
    ensures At(autocommit, log, 0).tx.id.None?
  {
    assert log[..0] == [];
  }

  /**
   * NONE stands beside a held identifier exactly when the log says so: the last entry that
   * said anything about the open transaction recorded NONE for it without ending it.
   */
  lemma NoneWhileHeldExactly(autocommit: bool, log: seq<Action>, n: nat)
    requires Legal(autocommit, log) && n <= |log|
    ensures At(autocommit, log, n).tx.id.Some? && At(autocommit, log, n).tx.state == StateNone <==>
              exists k: nat :: LastRecordsNone(log, k, n)
  {
    hide LastRecordsNone, At, Legal;
    if At(autocommit, log, n).tx.id.Some? && At(autocommit, log, n).tx.state == StateNone {
      var k := NoneHasEntry(autocommit, log, n);
    }
    forall k: nat | LastRecordsNone(log, k, n)
      ensures At(autocommit, log, n).tx.id.Some? && At(autocommit, log, n).tx.state == StateNone
    {
      EntryLeavesNone(autocommit, log, k, n);
      OpenedBefore(log, k, n);
    }
  }

  lemma OpenedBefore(log: seq<Action>, k: nat, n: nat)
    requires n <= |log| && LastRecordsNone(log, k, n)
    ensures OpenBracket(log[..k]).Some?
  {
  }

  lemma NothingHeldStep(s: Session, a: Action)
    requires Consistent(s) && s.tx.id.None? && Allowed(s, a)
    ensures After(s, a).tx.id.Some? ==> After(s, a).tx.state == StateActive
  {
  }

  /** So NONE does not mean that no transaction is held: one inconsistent rollback reply suffices. */
  lemma NoneDoesNotMeanIdle()
    ensures exists log :: Legal(false, log) && At(false, log, |log|).tx.state == StateNone
                          && At(false, log, |log|).tx.id.Some?
  {
    var begun, reply := Begin(Success("t")), Rollback("t", Success(Status("", StateNone)), false);
    var log := [begun, reply];
    assert log[..1] == [begun] && [begun][..0] == [];
    assert Run(Start(false), []) == Some(Start(false));
    assert Run(Start(false), [begun]) == Some(After(Start(false), begun));
    assert log[..|log|] == log;
  }

  // ---- one execution at a time ----

  predicate EndsExecution(a: Action) { a.Finish? || a.Fail? || a.Discard? }

  lemma {:induction false} StaysRunning(autocommit: bool, log: seq<Action>, i: nat, j: nat)
    requires Legal(autocommit, log) && i < j <= |log| && log[i].Execute?
    requires forall k :: i < k < j ==> !EndsExecution(log[k])
    ensures At(autocommit, log, j).running == Some(log[i].id)
    decreases j
  {
    StepOf(autocommit, log, j - 1);
    if i < j - 1 {
      StaysRunning(autocommit, log, i, j - 1);
    }
  }

  /** Between any two executions the first one finished, failed or was discarded. */
  lemma OneExecutionAtATime(autocommit: bool, log: seq<Action>, i: nat, j: nat)
    requires Legal(autocommit, log) && i < j < |log| && log[i].Execute? && log[j].Execute?
    ensures exists k :: i < k < j && EndsExecution(log[k])
  {
    if forall k :: i < k < j ==> !EndsExecution(log[k]) {
      StaysRunning(autocommit, log, i, j);
      StepOf(autocommit, log, j);
    }
  }

  /** A commit can still go out where an execution cannot exactly in the unknown state, before any commit. */
  lemma CommitWithoutExecuteExactly(s: Session)
    requires Consistent(s) && !s.closed && s.running.None? && s.tx.id.Some?
    ensures var id := s.tx.id.value;
            (exists reply :: Allowed(s, Commit(id, reply))) && !Allowed(s, Execute(id))
            <==> s.tx.state == StateUnknown && !s.tx.commitAttempted
  {
    var id := s.tx.id.value;
    if s.tx.state != StateRollbackOnly && !s.tx.commitAttempted {
      assert Allowed(s, Commit(id, Failure(ProtocolError)));
    }
  }

  /** That state is reached: a failed execution that says nothing of its transaction suffices. */
  lemma UnknownBeforeAnyCommit()
    ensures exists log ::
              && Legal(false, log)
              && var s := At(false, log, |log|);
                 && !s.closed && s.running.None? && s.tx.id.Some?
                 && s.tx.state == StateUnknown && !s.tx.commitAttempted
  {
    var begun, sent := Begin(Success("t")), Execute("t");
    var failed := Fail(RpcError(RpcDetails(None, None, None)));
    var log := [begun, sent, failed];
    assert log[..2] == [begun, sent] && [begun, sent][..1] == [begun] && [begun][..0] == [];
    assert Run(Start(false), []) == Some(Start(false));
    assert Run(Start(false), [begun]) == Some(After(Start(false), begun));
    var held := After(Start(false), begun);
    assert Run(Start(false), [begun, sent]) == Some(After(held, sent));
    assert log[..|log|] == log;
  }

  // ---- the recorded state is the one last told ----

  /**
   * What an entry tells of the state of a held transaction: a status does, and an error
   * that names it; any other failed commit or rollback, and any other failure of an
   * execution that may have run, tells that the state is unknown.
   */
  function Told(a: Action, id: string): Option<TxState> {
    match a
    case Begin(Success(_)) => Some(StateActive)
    case Finish(status) => Some(status.state)
    case Fail(error) => if error.RpcError? then ToldByFailure(error.details, id, false) else None
    case Commit(_, Success(status)) => Some(status.state)
    case Commit(_, Failure(RpcError(details))) => ToldByFailure(details, id, true)
    case Commit(_, Failure(_)) => Some(StateUnknown)
    case Rollback(_, Success(status), _) => Some(status.state)
    case Rollback(_, Failure(error), closing) =>
      if closing then None
      else if error.RpcError? then ToldByFailure(error.details, id, true)
      else Some(StateUnknown)
    case _ => None
  }

  function ToldByFailure(details: RpcDetails, id: string, terminal: bool): Option<TxState> {
    if details.transactionId == Some(id) && details.transactionState.Some? then details.transactionState
    else if terminal || details.sqlExecuted != Some(false) then Some(StateUnknown)
    else None
  }

  lemma ToldStep(s: Session, a: Action)
    requires Consistent(s) && Allowed(s, a) && After(s, a).tx.id.Some?
    ensures var id := After(s, a).tx.id.value;
            After(s, a).tx.state == if Told(a, id).Some? then Told(a, id).value else s.tx.state
    ensures Told(a, After(s, a).tx.id.value).None? ==> s.tx.id == After(s, a).tx.id
  {
  }

  /**
   * While a transaction is held, the recorded state is the one told last: some entry told
   * it, and every entry since told nothing.
   */
  lemma {:induction false} RecordedStateIsLastTold(autocommit: bool, log: seq<Action>, n: nat) returns (k: nat)
    requires Legal(autocommit, log) && n <= |log| && At(autocommit, log, n).tx.id.Some?
    ensures var tx := At(autocommit, log, n).tx;
            && k < n && Told(log[k], tx.id.value) == Some(tx.state)
            && forall m :: k < m < n ==> Told(log[m], tx.id.value).None?
  {
    hide After, Allowed, Told, Consistent, Legal, Run;
    if n == 0 {
      k := 0;
      assert false by { StartHoldsNothing(autocommit, log); }
    } else {
      AlwaysConsistent(autocommit, log, n - 1);
      StepOf(autocommit, log, n - 1);
      ToldStep(At(autocommit, log, n - 1), log[n - 1]);
      var id := At(autocommit, log, n).tx.id.value;
      if Told(log[n - 1], id).Some? {
        k := n - 1;
      } else {
        k := RecordedStateIsLastTold(autocommit, log, n - 1);
      }
    }
  }

  /** An execution that ends in ROLLBACK_ONLY is the last thing sent until a rollback or the logout. */
  lemma ReportedRollbackOnlyBlocks(autocommit: bool, log: seq<Action>, i: nat, j: nat)
    requires Legal(autocommit, log) && i < j <= |log|
    requires log[i].Finish? && log[i].status.state == StateRollbackOnly
    requires forall k :: i < k < j ==> !log[k].Rollback? && !log[k].Logout?
    ensures forall k :: i < k < j ==> !log[k].Execute? && !log[k].Commit?
  {
    StepOf(autocommit, log, i);
    RollbackOnlyPersists(autocommit, log, i + 1, j);
  }

  /** So is a failure that names the held transaction as rollback-only. */
  lemma FailedRollbackOnlyBlocks(autocommit: bool, log: seq<Action>, i: nat, j: nat)
    requires Legal(autocommit, log) && i < j <= |log| && log[i].Fail? && log[i].error.RpcError?
    requires log[i].error.details.transactionId == At(autocommit, log, i).tx.id != None
    requires log[i].error.details.transactionState == Some(StateRollbackOnly)
    requires forall k :: i < k < j ==> !log[k].Rollback? && !log[k].Logout?
    ensures forall k :: i < k < j ==> !log[k].Execute? && !log[k].Commit?
  {
    StepOf(autocommit, log, i);
    RollbackOnlyPersists(autocommit, log, i + 1, j);
  }

  /**
   * Once an entry leaves the state of the held transaction unknown, as any failed rollback
   * does that does not name it, no execution goes out before an entry tells another state.
   */
  lemma {:induction false} UnknownBlocksExecution(autocommit: bool, log: seq<Action>, i: nat, j: nat)
    requires Legal(autocommit, log) && i < j < |log| && log[j].Execute?
    requires At(autocommit, log, i).tx.id.Some? && At(autocommit, log, i + 1).tx.id.Some?
    requires Told(log[i], At(autocommit, log, i + 1).tx.id.value) == Some(StateUnknown)
    ensures var id := At(autocommit, log, i + 1).tx.id.value;
            exists k :: i < k < j && (Terminates(log[k], id) || Told(log[k], id) !in {None, Some(StateUnknown)})
  {
    var id := At(autocommit, log, i + 1).tx.id.value;
    StepOf(autocommit, log, i);
    AlwaysConsistent(autocommit, log, i);
    ToldStep(At(autocommit, log, i), log[i]);
    if forall k :: i < k < j ==> !Terminates(log[k], id) && Told(log[k], id) in {None, Some(StateUnknown)} {
      UnknownStays(autocommit, log, i + 1, j, id);
      StepOf(autocommit, log, j);
      AlwaysConsistent(autocommit, log, j);
    }
  }

  lemma {:induction false} UnknownStays(autocommit: bool, log: seq<Action>, i: nat, j: nat, id: string)
    requires Legal(autocommit, log) && i <= j <= |log|
    requires At(autocommit, log, i).tx.id == Some(id) && At(autocommit, log, i).tx.state == StateUnknown
    requires forall k :: i <= k < j ==> !Terminates(log[k], id) && Told(log[k], id) in {None, Some(StateUnknown)}
    ensures At(autocommit, log, j).tx.id == Some(id) && At(autocommit, log, j).tx.state == StateUnknown
    decreases j
  {
    hide After, Allowed, Told, Consistent, Legal, At, Terminates, BracketAfter;
    if i < j {
      UnknownStays(autocommit, log, i, j - 1, id);
      AlwaysConsistent(autocommit, log, j - 1);
      StepOf(autocommit, log, j - 1);
      HeldStays(At(autocommit, log, j - 1), log[j - 1]);
      ToldStep(At(autocommit, log, j - 1), log[j - 1]);
    }
  }

  /** A held identifier stays until an entry terminates it. */
  lemma HeldStays(s: Session, a: Action)
    requires Consistent(s) && Allowed(s, a) && s.tx.id.Some? && !Terminates(a, s.tx.id.value)
    ensures After(s, a).tx.id == s.tx.id
  {
  }
}
