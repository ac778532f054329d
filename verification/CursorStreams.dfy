/** What an Execute stream can look like when neither extra results nor keys are accepted. */
module CursorStreams {
  import opened Wrappers
  import opened Errors
  import opened Protocol
  import opened Grammar
  import opened Transcripts
  import opened Transactions
  import opened Fetching

  /** A client that accepts one primary result and no generated keys. */
  predicate SingleResult(cfg: Config) {
    MULTIPLE_RESULTS !in cfg.accepted && GENERATED_KEYS !in cfg.accepted
  }

  /** Nothing more, or the end. */
  predicate EndTail(es: seq<Event>) {
    es == [] || (|es| == 1 && es[0].Ended?)
  }

  /** Row batches of one result set, cut off anywhere, or closed by its end and the stream's. */
  predicate QueryTail(es: seq<Event>) {
    es != [] ==>
      match es[0]
      case Rows(_, _) => QueryTail(es[1..])
      case SetEnded(_, _) => EndTail(es[1..])
      case _ => false
  }

  predicate Opening(es: seq<Event>) {
    es != [] ==>
      match es[0]
      case Started(_, _, role, parent) => role == Query && parent.None? && QueryTail(es[1..])
      case Updated(_, _) => EndTail(es[1..])
      case Ended(_) => |es| == 1
      case _ => false
  }

  /** A transcript completes exactly with an end, whose status is sound, as its last event. */
  predicate WellEnded(t: Transcript) {
    && (t.verdict.Completed? <==> t.events != [] && t.events[|t.events| - 1].Ended?)
    && (t.verdict.Completed? ==> DecodeStatus(t.events[|t.events| - 1].outcome.status).Success?)
  }

  /** The first response opens a query, is an update, ends the execution, or is refused. */
  lemma FirstMove(cfg: Config, r: Response)
    requires SingleResult(cfg)
    ensures ParseOk(cfg, EMPTY)
    ensures match Advance(cfg, EMPTY, r)
            case Delivered(p, e) =>
              if p.open.Some? then p.done == [] && e.Started? && e.role == Query && e.parent.None?
              else e.Updated? && |p.done| == 1 && !IsKeys(p.done[0])
            case _ => true
  {
    hide Sentence, InLimits, ColumnsOk, CountsOk, BatchOk, EndOk, OutcomeOf, Primaries, DecodeColumns, DecodeCounts,
         PrimaryAllowed;
    EmptyParse(cfg);
  }

  lemma FinalStatus(cfg: Config, p: Parse, r: Response)
    requires ParseOk(cfg, p) && Advance(cfg, p, r).Final?
    ensures DecodeStatus(Advance(cfg, p, r).outcome.status).Success?
  {
    hide Sentence, InLimits, DecodeOutcome, DecodeStatus, Advance;
    FinalMeans(cfg, p, r);
  }

  lemma SingleResultDone(cfg: Config, p: Parse, rs: seq<Response>, ending: Ending)
    requires ParseOk(cfg, p) && SingleResult(cfg) && p.open.None? && Primaries(p.done) > 0
    ensures var t := Read(cfg, p, rs, ending); EndTail(t.events) && WellEnded(t)
  {
    hide Sentence, InLimits, ColumnsOk, BatchOk, DecodeOutcome, DecodeStatus;
  }

  /** Inside a result set only its rows and its end are accepted. */
  lemma OpenMove(cfg: Config, p: Parse, r: Response)
    requires ParseOk(cfg, p) && p.open.Some?
    ensures match Advance(cfg, p, r)
            case Delivered(p', e) =>
              if p'.open.Some? then e.Rows? else e.SetEnded? && p'.done == p.done + [p.open.value]
            case Final(_) => false
            case Refused => true
  {
    hide Sentence, InLimits, ColumnsOk, CountsOk, BatchOk, EndOk, OutcomeOf, PrimaryAllowed, DecodeBatch,
         DecodeColumns;
  }

  /** Reading on inside a result set: one more event, or the failure. */
  lemma OpenRead(cfg: Config, p: Parse, rs: seq<Response>, ending: Ending)
    requires ParseOk(cfg, p) && p.open.Some?
    ensures var t := Read(cfg, p, rs, ending);
            if rs == [] || !Advance(cfg, p, rs[0]).Delivered? then
              t.events == [] && t.verdict.Failed? && QueryTail(t.events) && WellEnded(t)
            else
              var m := Advance(cfg, p, rs[0]);
              && ParseOk(cfg, m.parse)
              && (if m.parse.open.Some? then m.event.Rows?
                  else m.event.SetEnded? && m.parse.done == p.done + [p.open.value])
              && var rest := Read(cfg, m.parse, rs[1..], ending);
                 t == Transcript([m.event] + rest.events, rest.verdict)
  {
    hide Sentence, Advance, ParseOk, DecodeStatus;
    if rs != [] {
      OpenMove(cfg, p, rs[0]);
      if Advance(cfg, p, rs[0]).Delivered? {
        AdvanceKeepsParse(cfg, p, rs[0]);
      }
    }
  }

  lemma WellEndedBehind(e: Event, rest: Transcript)
    requires WellEnded(rest) && !e.Ended?
    ensures WellEnded(Transcript([e] + rest.events, rest.verdict))
    ensures ([e] + rest.events)[1..] == rest.events
  {
    hide DecodeStatus;
  }

  lemma {:induction false} SingleResultOpen(cfg: Config, p: Parse, rs: seq<Response>, ending: Ending)
    requires ParseOk(cfg, p) && SingleResult(cfg) && p.open.Some?
    ensures var t := Read(cfg, p, rs, ending); QueryTail(t.events) && WellEnded(t)
    decreases |rs|
  {
    hide Sentence, Advance, Primaries, ParseOk, Read, EndTail, WellEnded;
    OpenRead(cfg, p, rs, ending);
    if rs != [] && Advance(cfg, p, rs[0]).Delivered? {
      var p' := Advance(cfg, p, rs[0]).parse;
      var rest := Read(cfg, p', rs[1..], ending);
      if p'.open.Some? {
        SingleResultOpen(cfg, p', rs[1..], ending);
      } else {
        NoKeysOpen(cfg, p);
        LastPrimary(p'.done);
        SingleResultDone(cfg, p', rs[1..], ending);
      }
      WellEndedBehind(Advance(cfg, p, rs[0]).event, rest);
    }
  }

  lemma NoKeysOpen(cfg: Config, p: Parse)
    requires ParseOk(cfg, p) && SingleResult(cfg) && p.open.Some?
    ensures !IsKeys(p.open.value)
  {
    hide Sentence, BatchOk, ColumnsOk;
  }

  lemma LastPrimary(blocks: seq<Block>)
    requires blocks != [] && !IsKeys(blocks[|blocks| - 1])
    ensures Primaries(blocks) > 0
  {
  }

  /** From its start such a stream is one query, one update or no result, and then its end. */
  lemma SingleResultOpening(cfg: Config, rs: seq<Response>, ending: Ending)
    requires SingleResult(cfg)
    ensures ParseOk(cfg, EMPTY)
    ensures var t := Read(cfg, EMPTY, rs, ending); Opening(t.events) && WellEnded(t)
  {
    hide Sentence, Advance, Primaries, QueryTail, EndTail;
    EmptyParse(cfg);
    if rs != [] {
      FirstMove(cfg, rs[0]);
    }
    if rs != [] && Advance(cfg, EMPTY, rs[0]).Final? {
      FinalStatus(cfg, EMPTY, rs[0]);
    } else if rs != [] && Advance(cfg, EMPTY, rs[0]).Delivered? {
      AdvanceKeepsParse(cfg, EMPTY, rs[0]);
      var p' := Advance(cfg, EMPTY, rs[0]).parse;
      var t, rest := Read(cfg, EMPTY, rs, ending), Read(cfg, p', rs[1..], ending);
      assert t.events[1..] == rest.events;
      if p'.open.Some? {
        SingleResultOpen(cfg, p', rs[1..], ending);
      } else {
        LastPrimary(p'.done);
        SingleResultDone(cfg, p', rs[1..], ending);
      }
    }
  }

  /** The transcript of a whole call. */
  function Whole(cfg: Config, rs: seq<Response>, ending: Ending): Transcript {
    EmptyParse(cfg);
    Read(cfg, EMPTY, rs, ending)
  }

  // ---- the count announced is the number of rows ----

  /** An announced row count is the rows the set had, and a success announces one. */
  lemma {:induction false} AnnouncedCount(cfg: Config, p: Parse, rs: seq<Response>, ending: Ending)
    requires ParseOk(cfg, p) && SingleResult(cfg) && p.open.Some?
    ensures var f := FutureOf(Read(cfg, p, rs, ending));
            && (f.count.Some? ==> f.count.value == RowCount(p.open.value.batches) + |f.rows|)
            && (f.tail.Concludes? ==> f.count.Some?)
    decreases |rs|
  {
    hide Sentence, InLimits, ColumnsOk, BatchOk, EndOk, OutcomeOf, Primaries, DecodeColumns, AdaptRow;
    if rs != [] && Advance(cfg, p, rs[0]).Delivered? {
      AdvanceKeepsParse(cfg, p, rs[0]);
      var p' := Advance(cfg, p, rs[0]).parse;
      var t, rest := Read(cfg, p, rs, ending), Read(cfg, p', rs[1..], ending);
      assert t == Transcript([t.events[0]] + rest.events, rest.verdict);
      assert Transcript(t.events[1..], t.verdict) == rest;
      if p'.open.Some? {
        RowCountSnoc(p.open.value.batches, rs[0].event.rows);
        AnnouncedCount(cfg, p', rs[1..], ending);
      } else {
        LastPrimary(p'.done);
        SingleResultDone(cfg, p', rs[1..], ending);
        EndTailFuture(rest);
      }
    }
  }

  lemma EndTailFuture(t: Transcript)
    requires EndTail(t.events)
    ensures FutureOf(t).rows == [] && FutureOf(t).count.None?
  {
  }

  /**
   * Once fetching a query reports exhaustion, the rows handed out are all the rows the
   * server streamed, and the cursor's row count is their number.
   */
  lemma ExhaustionIsComplete(
    cfg: Config, p: Parse, rs: seq<Response>, ending: Ending,
    executedAs: string, rowcount: int, ledger: Ledger, turns: seq<Turn>)
    requires ParseOk(cfg, p) && SingleResult(cfg) && p.open.Some? && p.open.value.batches == []
    ensures var f := FutureOf(Read(cfg, p, rs, ending));
            var run := Fetches(FetchState(Open(f, executedAs), rowcount, NO_REPORT, ledger), turns);
            run.state.shelf.Exhausted? ==>
              Handed(run.answers) == f.rows && run.state.rowcount == |Handed(run.answers)|
  {
    hide Read, FutureOf, Fetches, Handed;
    AnnouncedCount(cfg, p, rs, ending);
    var f := FutureOf(Read(cfg, p, rs, ending));
    FetchingConservesRows(FetchState(Open(f, executedAs), rowcount, NO_REPORT, ledger), turns);
  }

  // ---- reading the initial result ----

  /** `_update_rowcount`. */
  function UpdateRowcount(counts: seq<Option<nat>>): int {
    if None in counts then -1 else Sum(counts)
  }

  function Sum(counts: seq<Option<nat>>): nat
    requires None !in counts
  {
    if counts == [] then 0 else counts[0].value + Sum(counts[1..])
  }

  /** What `execute` leaves behind: an error to raise, if any, the columns and the result. */
  datatype Launched = Launched(failure: Option<Error>, columns: seq<Column>, state: FetchState)

  function OpenExecution(t: Transcript, executedAs: string, rowcount: int, l: Ledger): Launched
    decreases |t.events|
  {
    if t.events == [] then
      var error := if t.verdict.Failed? then t.verdict.error else ProtocolError;
      GivenUp(error, rowcount, l)
    else
      var rest := Transcript(t.events[1..], t.verdict);
      match t.events[0]
      case Started(_, columns, _, _) =>
        Launched(None, columns, FetchState(Shelf.Open(FutureOf(rest), executedAs), rowcount, NO_REPORT, l))
      case Updated(_, counts) => OpenExecution(rest, executedAs, UpdateRowcount(counts), l)
      case Ended(outcome) =>
        (match ObserveEnd(l.tx, outcome.status, executedAs)
         case Success(_) =>
           Launched(None, [],
                    FetchState(NoResult, rowcount, ReportOf(outcome), Enter(l, Action.Finish(outcome.status))))
         case Failure(error) => GivenUp(error, rowcount, l))
      case _ => GivenUp(InternalError, rowcount, l)
  }

  /** The execution ended in an error before it had a result. */
  function GivenUp(error: Error, rowcount: int, l: Ledger): Launched {
    Launched(Some(Translate(error)), [], FetchState(NoResult, rowcount, NO_REPORT, Enter(l, Action.Fail(error))))
  }

  /** A cursor with no open result hands out no row, and its result stays as it is. */
  lemma {:induction false} NothingOpenYieldsNothing(s: FetchState, turns: seq<Turn>)
    requires !s.shelf.Open?
    ensures Handed(Fetches(s, turns).answers) == []
    ensures Fetches(s, turns).state == s.(ledger := Fetches(s, turns).state.ledger)
  {
    hide Fetch;
    if turns != [] {
      var init := turns[..|turns| - 1];
      NothingOpenYieldsNothing(s, init);
      var before, run := Fetches(s, init), Fetches(s, turns);
      if turns[|turns| - 1].Ask? {
        FetchOfNothing(before.state, turns[|turns| - 1].demand);
        assert run.answers[..|run.answers| - 1] == before.answers;
      }
    }
  }

  lemma FetchOfNothing(s: FetchState, d: Demand)
    requires !s.shelf.Open?
    ensures RowsIn(Fetch(s, d).0) == [] && Fetch(s, d).1 == s
  {
    hide Settle;
  }
}
