/** What one call of `execute` or `executemany` comes to, whatever the server answers. */
module ExecutionTheorems {
  import opened Wrappers
  import opened Errors
  import opened Protocol
  import opened Grammar
  import opened Transcripts
  import opened Transactions
  import opened Requests
  import opened Fetching
  import opened CursorStreams
  import opened Executions

  // ---- what a report may say ----

  /** A partial result was accepted, allowed, queried and explained; a complete one has no cause. */
  predicate ReportFits(terms: Terms, r: Report, queried: bool) {
    var accepted := PARTIAL_RESULTS in AcceptedOutputFeatures(terms.info);
    match r.completeness
    case None => r == NO_REPORT
    case Some(c) =>
      && (accepted <==> c in {Partial, Complete})
      && (c == Partial ==> terms.allowPartial && queried && HasCause(r.warnings))
      && (c == Complete ==> !HasCause(r.warnings))
      && (!accepted ==> r == Report(Some(Unspecified), [], 0))
  }

  /** Nothing is reported before the end, and the end ahead of an open result may be reported as it is. */
  predicate DeskOk(terms: Terms, d: Desk) {
    && ReportFits(terms, d.report, d.shelf.Exhausted?)
    && (d.shelf.Open? ==> d.report == NO_REPORT && TailFits(terms, d.shelf.future.tail))
    && (d.closed ==> !d.shelf.Open?)
  }

  predicate TailFits(terms: Terms, tail: Tail) {
    tail.Concludes? ==>
      ReportFits(terms, ReportOf(tail.outcome), true) && DecodeStatus(tail.outcome.status).Success?
  }

  // ---- what an opened stream brings ----

  /** The rows of all row batches, one after the other. */
  function RowsOf(events: seq<Event>): seq<Row> {
    if events == [] then []
    else (if events[0].Rows? then events[0].rows else []) + RowsOf(events[1..])
  }

  /** All rows the server streams in reply, as a cursor adapts them. */
  function StreamRows(terms: Terms, call: CallReply): seq<Row> {
    match call
    case CallFailed(_) => []
    case CallAccepted(responses, ending) => AdaptRows(RowsOf(Whole(Reader(terms), responses, ending).events))
  }

  lemma {:induction false} FutureOfTail(t: Transcript)
    requires QueryTail(t.events) || EndTail(t.events)
    ensures FutureOf(t).rows == AdaptRows(RowsOf(t.events))
    ensures FutureOf(t).tail.Concludes? ==>
              t.events != [] && t.events[|t.events| - 1] == Ended(FutureOf(t).tail.outcome)
    decreases |t.events|
  {
    hide AdaptRow;
    if t.events != [] {
      var rest := Transcript(t.events[1..], t.verdict);
      if !t.events[0].Ended? {
        FutureOfTail(rest);
      } else {
        assert rest.events == [];
      }
      if t.events[0].Rows? {
        assert AdaptRows(t.events[0].rows + RowsOf(rest.events)) ==
               AdaptRows(t.events[0].rows) + AdaptRows(RowsOf(rest.events));
      }
    }
  }

  /** What lies ahead of a freshly opened result: the stream's rows, counted, and a fitting end. */
  ghost predicate OpensWell(terms: Terms, call: CallReply, f: Future) {
    && f.rows == StreamRows(terms, call)
    && (f.count.Some? ==> f.count.value == |f.rows|)
    && (f.tail.Concludes? ==> f.count.Some?)
    && TailFits(terms, f.tail)
  }

  /** An end the reader delivers may be reported. */
  lemma DeliveredEndFits(terms: Terms, rs: seq<Response>, ending: Ending)
    ensures var events := Whole(Reader(terms), rs, ending).events;
            events != [] && events[|events| - 1].Ended? ==>
              ReportFits(terms, ReportOf(events[|events| - 1].outcome), HasQuery(events[..|events| - 1]))
  {
    hide Read;
    var events := Whole(Reader(terms), rs, ending).events;
    if events != [] && events[|events| - 1].Ended? {
      OutcomeMeansCompletion(Reader(terms), rs, ending);
      PartialIsNeverSilent(Reader(terms), rs, ending);
    }
  }

  lemma OpeningCount(cfg: Config, rs: seq<Response>, ending: Ending)
    requires SingleResult(cfg)
    ensures var t := Whole(cfg, rs, ending);
            t.events != [] && t.events[0].Started? ==>
              var f := FutureOf(Transcript(t.events[1..], t.verdict));
              && (f.count.Some? ==> f.count.value == |f.rows|)
              && (f.tail.Concludes? ==> f.count.Some?)
  {
    hide Sentence, Advance, FutureOf;
    EmptyParse(cfg);
    var t := Whole(cfg, rs, ending);
    if t.events != [] && t.events[0].Started? {
      var move := Advance(cfg, EMPTY, rs[0]);
      AdvanceKeepsParse(cfg, EMPTY, rs[0]);
      StartOpens(cfg, rs[0]);
      AnnouncedCount(cfg, move.parse, rs[1..], ending);
      assert t.events[1..] == Read(cfg, move.parse, rs[1..], ending).events;
    }
  }

  lemma StartOpens(cfg: Config, r: Response)
    ensures ParseOk(cfg, EMPTY)
    ensures var m := Advance(cfg, EMPTY, r);
            m.Delivered? && m.event.Started? ==>
              m.parse.open == Some(SetBlock(r.event.role, r.event.wireColumns, []))
  {
    hide Sentence, InLimits, ColumnsOk, DecodeColumns;
    EmptyParse(cfg);
  }

  /** A result is left open, or none; what is ahead of it is the stream of that very reply. */
  lemma LaunchCallFits(terms: Terms, l: Ledger, call: CallReply, id: string)
    ensures var s := LaunchCall(Reader(terms), l, call, id).state;
            match s.shelf
            case Open(f, _) => OpensWell(terms, call, f) && s.report == NO_REPORT
            case NoResult => ReportFits(terms, s.report, false)
            case _ => false
    ensures var launched := LaunchCall(Reader(terms), l, call, id);
            launched.failure.Some? ==> launched.state.shelf.NoResult?
  {
    hide ReportFits, FutureOf, Enter, ObserveEnd, Translate, AdaptRows, Read, StreamConfig, AcceptedOutputFeatures;
    assert ReportFits(terms, NO_REPORT, false) by { NothingReportedFits(terms); }
    if call.CallAccepted? {
      SingleReader(terms);
      OpenedFits(terms, call, id, Enter(l, Action.Execute(id)));
    }
  }

  lemma NothingReportedFits(terms: Terms)
    ensures ReportFits(terms, NO_REPORT, false)
  {
  }

  lemma SingleReader(terms: Terms)
    ensures SingleResult(Reader(terms))
  {
  }

  lemma OpenedFits(terms: Terms, call: CallReply, id: string, sent: Ledger)
    requires call.CallAccepted? && SingleResult(Reader(terms)) && ReportFits(terms, NO_REPORT, false)
    ensures var o := OpenExecution(Whole(Reader(terms), call.responses, call.ending), id, -1, sent);
            match o.state.shelf
            case Open(f, _) => OpensWell(terms, call, f) && o.state.report == NO_REPORT && o.failure.None?
            case NoResult => ReportFits(terms, o.state.report, false)
            case _ => false
  {
    hide ReportFits, FutureOf, Enter, ObserveEnd, Translate, AdaptRows, Read, Reader, QueryTail, SingleResult,
         UpdateRowcount;
    var cfg := Reader(terms);
    var t := Whole(cfg, call.responses, call.ending);
    SingleResultOpening(cfg, call.responses, call.ending);
    DeliveredEndFits(terms, call.responses, call.ending);
    if t.events != [] && t.events[0].Started? {
      hide OpensWell;
      StartedFits(terms, call);
    }
  }

  lemma StartedFits(terms: Terms, call: CallReply)
    requires call.CallAccepted? && SingleResult(Reader(terms))
    requires var t := Whole(Reader(terms), call.responses, call.ending);
             t.events != [] && t.events[0].Started? && t.events[0].role == Query && QueryTail(t.events[1..])
    ensures var t := Whole(Reader(terms), call.responses, call.ending);
            OpensWell(terms, call, FutureOf(Transcript(t.events[1..], t.verdict)))
  {
    hide ReportFits, FutureOf, AdaptRows, Read, Reader, QueryTail, SingleResult;
    var t := Whole(Reader(terms), call.responses, call.ending);
    OpeningCount(Reader(terms), call.responses, call.ending);
    DeliveredEndFits(terms, call.responses, call.ending);
    SingleResultOpening(Reader(terms), call.responses, call.ending);
    var rest := Transcript(t.events[1..], t.verdict);
    FutureOfTail(rest);
    assert RowsOf(t.events) == RowsOf(rest.events);
    if FutureOf(rest).tail.Concludes? {
      assert t.events[|t.events| - 1] == rest.events[|rest.events| - 1];
      assert t.events[..|t.events| - 1][0] == t.events[0];
      assert HasQuery(t.events[..|t.events| - 1]);
    }
  }

  /** `execute` after the reset: a result of this very reply is open, or none is. */
  lemma LaunchFits(
    terms: Terms, l: Ledger, slotTaken: bool, operation: string, arguments: seq<Argument>, batchSize: int,
    reply: ExecuteReply)
    requires forall a | a in arguments :: SoundArgument(terms.info.lib, a)
    ensures var launched := Launch(terms, l, slotTaken, operation, arguments, batchSize, reply);
            && (launched.failure.Some? || slotTaken ==> launched.state.shelf.NoResult?)
            && match launched.state.shelf
               case Open(f, _) => OpensWell(terms, reply.call, f) && launched.state.report == NO_REPORT
               case NoResult => ReportFits(terms, launched.state.report, false)
               case _ => false
  {
    hide ReportFits, OpensWell, Refusal, LaunchCall, AdmitUnder, AcceptedOutputFeatures, Reader;
    NothingReportedFits(terms);
    match AdmitUnder(terms.info, l, reply.begin)
    case Admitted(Success(id), l') => LaunchCallFits(terms, l', reply.call, id);
    case _ =>
  }

  // ---- one execution ----

  /** An execution keeps a desk sound; it is left open only on a free slot and without an error. */
  lemma ExecuteOnFits(
    terms: Terms, d: Desk, l: Ledger, slotTaken: bool, operation: string, p: Parameters, reply: ExecuteReply)
    requires SoundParameters(terms, p) && DeskOk(terms, d) && !d.closed && (slotTaken ==> !d.shelf.Open?)
    ensures var a := ExecuteOn(terms, d, l, slotTaken, operation, p, reply);
            && DeskOk(terms, a.desk) && !a.desk.closed
            && (slotTaken ==> !a.desk.shelf.Open?)
            && (operation != "" && !p.NotPositional? ==>
                  match a.desk.shelf
                  case Open(f, _) => a.failure.None? && OpensWell(terms, reply.call, f)
                  case NoResult => true
                  case _ => false)
            && (a.failure.Some? && a.desk.shelf.Open? ==> a.desk == d)
  {
    hide ReportFits, Launch, StreamRows, Dropped;
    if operation != "" && !p.NotPositional? {
      LaunchFits(terms, Dropped(l, d.shelf.Open?), slotTaken, operation, ArgumentsOf(p), d.arraysize, reply);
      QueriedMayReport(terms, NO_REPORT);
      NothingReportedFits(terms);
    }
  }

  lemma QueriedMayReport(terms: Terms, r: Report)
    ensures ReportFits(terms, r, false) ==> ReportFits(terms, r, true)
  {
  }

  /** An execution of `executemany` never leaves a result open, unless it was refused unsent. */
  lemma ExecuteForCountFits(terms: Terms, d: Desk, l: Ledger, slotTaken: bool, operation: string, b: Batch)
    requires SoundParameters(terms, b.parameters) && DeskOk(terms, d) && !d.closed && (slotTaken ==> !d.shelf.Open?)
    ensures var a := ExecuteForCount(terms, d, l, slotTaken, operation, b);
            && DeskOk(terms, a.desk) && !a.desk.closed
            && (a.failure.None? ==> !a.desk.shelf.Open?)
            && (a.desk.shelf.Open? ==> a.desk == d)
  {
    hide ReportFits, ExecuteOn, Dropped;
    ExecuteOnFits(terms, d, l, slotTaken, operation, b.parameters, b.reply);
    NothingReportedFits(terms);
    QueriedMayReport(terms, NO_REPORT);
  }

  lemma {:induction false} ExecuteEachFits(
    terms: Terms, d: Desk, l: Ledger, slotTaken: bool, operation: string, batches: seq<Batch>, total: int)
    requires SoundBatches(terms, batches) && DeskOk(terms, d) && !d.closed && (slotTaken ==> !d.shelf.Open?)
    ensures var a := ExecuteEach(terms, d, l, slotTaken, operation, batches, total);
            && DeskOk(terms, a.desk) && !a.desk.closed
            && (a.desk.shelf.Open? ==> a.desk.shelf == d.shelf)
            && (a.failure.None? && batches != [] ==> !a.desk.shelf.Open?)
    decreases |batches|
  {
    hide ReportFits, ExecuteForCount, Plus;
    if batches != [] {
      assert batches[0] in batches;
      ExecuteForCountFits(terms, d, l, slotTaken, operation, batches[0]);
      var a := ExecuteForCount(terms, d, l, slotTaken, operation, batches[0]);
      if a.failure.None? {
        ExecuteEachFits(terms, a.desk, a.ledger, slotTaken, operation, batches[1..], Plus(total, a.desk.rowcount));
      }
    }
  }

  lemma ExecuteManyOnFits(
    terms: Terms, d: Desk, l: Ledger, slotTaken: bool, operation: string, batches: Option<seq<Batch>>)
    requires batches.Some? ==> SoundBatches(terms, batches.value)
    requires DeskOk(terms, d) && !d.closed && (slotTaken ==> !d.shelf.Open?)
    ensures var a := ExecuteManyOn(terms, d, l, slotTaken, operation, batches);
            && DeskOk(terms, a.desk) && !a.desk.closed
            && (a.desk.shelf.Open? ==> a.desk.shelf == d.shelf)
            && (a.failure.None? ==> !a.desk.shelf.Open?)
  {
    hide ReportFits, ExecuteEach, Dropped;
    NothingReportedFits(terms);
    if batches.Some? {
      ExecuteEachFits(terms, d, l, slotTaken, operation, batches.value, 0);
    }
  }

  // ---- executemany as a whole ----

  /** The row counts of the executions that succeeded, up to the first that did not. */
  function CountsOf(
    terms: Terms, d: Desk, l: Ledger, slotTaken: bool, operation: string, batches: seq<Batch>): (counts: seq<int>)
    requires SoundBatches(terms, batches)
    ensures |counts| <= |batches|
    decreases |batches|
  {
    if batches == [] then []
    else
      assert batches[0] in batches;
      var a := ExecuteForCount(terms, d, l, slotTaken, operation, batches[0]);
      if a.failure.Some? then []
      else [a.desk.rowcount] + CountsOf(terms, a.desk, a.ledger, slotTaken, operation, batches[1..])
  }

  /** The sum of the counts, or -1 as soon as one of them is unknown. */
  function TotalCount(counts: seq<int>): (total: int)
    ensures total >= -1
  {
    if exists i :: 0 <= i < |counts| && counts[i] < 0 then -1
    else
      SumIsNatural(counts);
      SumOf(counts)
  }

  function SumOf(counts: seq<int>): int {
    if counts == [] then 0 else counts[0] + SumOf(counts[1..])
  }

  /** The cursor and the ledger after the first executions, none of which failed. */
  function Resumed(
    terms: Terms, d: Desk, l: Ledger, slotTaken: bool, operation: string, batches: seq<Batch>, n: nat): (Desk, Ledger)
    requires SoundBatches(terms, batches) && n <= |batches|
    decreases n
  {
    if n == 0 then (d, l)
    else
      assert batches[0] in batches;
      var a := ExecuteForCount(terms, d, l, slotTaken, operation, batches[0]);
      Resumed(terms, a.desk, a.ledger, slotTaken, operation, batches[1..], n - 1)
  }

  /**
   * `executemany` succeeds exactly when every execution does, and then reports the sum of
   * their row counts, or -1 when one is unknown; otherwise it is left as the first
   * execution that failed left it, after all those before it.
   */
  lemma {:induction false} ExecuteManyAddsUp(
    terms: Terms, d: Desk, l: Ledger, slotTaken: bool, operation: string, batches: seq<Batch>)
    requires SoundBatches(terms, batches)
    ensures var a := ExecuteEach(terms, d, l, slotTaken, operation, batches, 0);
            var counts := CountsOf(terms, d, l, slotTaken, operation, batches);
            && (a.failure.None? <==> |counts| == |batches|)
            && (a.failure.None? ==> a.desk.rowcount == TotalCount(counts))
            && (a.failure.Some? ==>
                  var n := |counts|;
                  var (d', l') := Resumed(terms, d, l, slotTaken, operation, batches, n);
                  batches[n] in batches && a == ExecuteForCount(terms, d', l', slotTaken, operation, batches[n]))
  {
    EachAddsUp(terms, d, l, slotTaken, operation, batches, 0);
  }

  lemma {:induction false} EachAddsUp(
    terms: Terms, d: Desk, l: Ledger, slotTaken: bool, operation: string, batches: seq<Batch>, total: int)
    requires SoundBatches(terms, batches) && total >= -1
    ensures var a := ExecuteEach(terms, d, l, slotTaken, operation, batches, total);
            var counts := CountsOf(terms, d, l, slotTaken, operation, batches);
            && (a.failure.None? <==> |counts| == |batches|)
            && (a.failure.None? ==>
                  a.desk.rowcount == if total < 0 || TotalCount(counts) < 0 then -1 else total + TotalCount(counts))
            && (a.failure.Some? ==>
                  var n := |counts|;
                  var (d', l') := Resumed(terms, d, l, slotTaken, operation, batches, n);
                  batches[n] in batches && a == ExecuteForCount(terms, d', l', slotTaken, operation, batches[n]))
    decreases |batches|
  {
    hide ExecuteForCount;
    if batches != [] {
      assert batches[0] in batches;
      var a := ExecuteForCount(terms, d, l, slotTaken, operation, batches[0]);
      if a.failure.None? {
        EachAddsUp(terms, a.desk, a.ledger, slotTaken, operation, batches[1..], Plus(total, a.desk.rowcount));
        CountCons(a.desk.rowcount, CountsOf(terms, a.desk, a.ledger, slotTaken, operation, batches[1..]));
      }
    }
  }

  lemma CountCons(count: int, counts: seq<int>)
    ensures TotalCount([count] + counts) ==
            if count < 0 || TotalCount(counts) < 0 then -1 else count + TotalCount(counts)
  {
    var all := [count] + counts;
    assert all[1..] == counts && all[0] == count;
    if i :| 0 <= i < |counts| && counts[i] < 0 {
      assert all[i + 1] < 0;
    } else if count >= 0 {
      assert forall i :: 0 <= i < |all| ==> all[i] >= 0;
      SumIsNatural(counts);
    }
  }

  lemma {:induction false} SumIsNatural(counts: seq<int>)
    requires forall i :: 0 <= i < |counts| ==> counts[i] >= 0
    ensures SumOf(counts) >= 0
  {
    if counts != [] {
      SumIsNatural(counts[1..]);
    }
  }
}
