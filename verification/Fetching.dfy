/**
 * The cursor a DB-API user sees: a list of rows still to come and what follows them.
 * Nothing here knows how the server cut the rows into batches.
 */
module Fetching {
  import opened Wrappers
  import opened Errors
  import opened LocalTimes
  import opened Codec
  import opened Protocol
  import opened Grammar
  import opened Transcripts
  import opened Transactions

  // ---- adapting rows ----

  /** Temporal wrappers become Python's types when they fit, and stay as they are otherwise. */
  function AdaptValue(v: Value): Value {
    match v
    case LocalTimestamp(text) =>
      (match ToDatetime(text)
       case Success((date, time)) => Datetime(date, time, false)
       case Failure(_) => v)
    case LocalTime(text) =>
      (match ToTime(text)
       case Success(time) => TimeOnly(time, false)
       case Failure(_) => v)
    case _ => v
  }

  function AdaptRow(row: Row): (r: Row)
    ensures |r| == |row|
  {
    seq(|row|, i requires 0 <= i < |row| => AdaptValue(row[i]))
  }

  function AdaptRows(rows: seq<Row>): (r: seq<Row>)
    ensures |r| == |rows|
  {
    seq(|rows|, i requires 0 <= i < |rows| => AdaptRow(rows[i]))
  }

  /** Adapting a local time loses nothing: the wrapper stays, or its instant does. */
  lemma AdaptationIsLossless(text: string)
    requires IsLocalTime(text)
    ensures match AdaptValue(LocalTime(text))
            case TimeOnly(time, aware) =>
              !aware && ValidTime(time) && InstantOfTime(time) == InstantOfClock(ParseLocalTime(text).value)
            case v => v == LocalTime(text) && !WholeMicroseconds(ParseLocalTime(text).value.fraction)
  {
    hide ParseLocalTime, Nanoseconds;
    ToTimeIsExact(text);
  }

  // ---- what lies ahead of a cursor ----

  datatype Tail = Concludes(outcome: Outcome) | Breaks(error: Error)

  /** The rows to come, the row count announced after them, and how the execution ends. */
  datatype Future = Future(rows: seq<Row>, count: Option<int>, tail: Tail)

  function FutureOf(t: Transcript): Future
    decreases |t.events|
  {
    if t.events == [] then
      Future([], None, Breaks(if t.verdict.Failed? then t.verdict.error else ProtocolError))
    else
      var rest := Transcript(t.events[1..], t.verdict);
      match t.events[0]
      case Rows(_, rows) => var f := FutureOf(rest); f.(rows := AdaptRows(rows) + f.rows)
      case SetEnded(_, rowCount) =>
        var f := FutureOf(rest);
        f.(count := if f.count.Some? then f.count else Some(rowCount))
      case Ended(outcome) => Future([], None, Concludes(outcome))
      case _ => Future([], None, Breaks(InternalError))
  }

  // ---- the logical cursor ----

  datatype Shelf = NoResult | Open(future: Future, executedAs: string) | Exhausted | Lost(error: Error)

  /** What a finished execution reported about itself; nothing before it has finished. */
  datatype Report = Report(completeness: Option<Completeness>, warnings: seq<Warning>, omitted: nat)

  const NO_REPORT := Report(None, [], 0)

  function ReportOf(outcome: Outcome): Report {
    Report(Some(outcome.completeness), outcome.warnings, outcome.omitted)
  }

  /** A cursor's result, with the connection's ledger behind it. */
  datatype FetchState = FetchState(shelf: Shelf, rowcount: int, report: Report, ledger: Ledger)

  function Count(f: Future, rowcount: int): int {
    if f.count.Some? then f.count.value else rowcount
  }

  /** More rows were asked for than there are: the end, or the failure, is observed. */
  function Settle(s: FetchState): FetchState
    requires s.shelf.Open?
  {
    var rowcount := Count(s.shelf.future, s.rowcount);
    match s.shelf.future.tail
    case Concludes(outcome) =>
      (match ObserveEnd(s.ledger.tx, outcome.status, s.shelf.executedAs)
       case Success(_) =>
         FetchState(Exhausted, rowcount, ReportOf(outcome), Enter(s.ledger, Action.Finish(outcome.status)))
       case Failure(error) => FetchState(Lost(error), rowcount, s.report, Enter(s.ledger, Action.Fail(error))))
    case Breaks(error) => FetchState(Lost(Translate(error)), rowcount, s.report, Enter(s.ledger, Action.Fail(error)))
  }

  /** Rows handed out, or the error raised instead. */
  type Answer = Result<seq<Row>, Error>

  /** Taking up to `wanted` rows, or all of them. */
  function Take(s: FetchState, wanted: Option<nat>): (Answer, FetchState) {
    match s.shelf
    case NoResult => (Failure(ProgrammingError), s)
    case Lost(error) => (Failure(error), s)
    case Exhausted => (Success([]), s)
    case Open(f, _) =>
      if wanted.Some? && wanted.value <= |f.rows| then
        (Success(f.rows[..wanted.value]), s.(shelf := s.shelf.(future := f.(rows := f.rows[wanted.value..]))))
      else
        var s' := Settle(s);
        (if s'.shelf.Lost? then Failure(s'.shelf.error) else Success(f.rows), s')
  }

  datatype Demand = FetchOne | FetchMany(size: int) | FetchAll

  function Fetch(s: FetchState, d: Demand): (Answer, FetchState) {
    match d
    case FetchOne => Take(s, Some(1))
    case FetchAll => Take(s, None)
    case FetchMany(size) =>
      if size >= 0 || s.shelf.NoResult? || s.shelf.Lost? then Take(s, Some(if size < 0 then 0 else size))
      else (Failure(ProgrammingError), s)
  }

  /** A fetch on the cursor, or anything else that moved the connection's ledger meanwhile. */
  datatype Turn = Ask(demand: Demand) | Meanwhile(ledger: Ledger)

  datatype FetchRun = FetchRun(answers: seq<Answer>, state: FetchState)

  /** Fetches between which the connection does other things, with every answer they got. */
  function Fetches(s: FetchState, turns: seq<Turn>): FetchRun {
    if turns == [] then FetchRun([], s)
    else
      var before := Fetches(s, turns[..|turns| - 1]);
      match turns[|turns| - 1]
      case Meanwhile(ledger) => before.(state := before.state.(ledger := ledger))
      case Ask(d) =>
        var (answer, after) := Fetch(before.state, d);
        FetchRun(before.answers + [answer], after)
  }

  /** The rows of one answer. */
  function RowsIn(answer: Answer): seq<Row> {
    if answer.Success? then answer.value else []
  }

  /** All rows the answers handed out, in order. */
  function Handed(answers: seq<Answer>): seq<Row> {
    if answers == [] then [] else Handed(answers[..|answers| - 1]) + RowsIn(answers[|answers| - 1])
  }

  // ---- row conservation ----

  /** How a result that began with these rows ahead stands after some of them were handed out. */
  predicate Conserved(f: Future, start: FetchState, s: FetchState, handed: seq<Row>) {
    match s.shelf
    case Open(rest, executedAs) =>
      && handed + rest.rows == f.rows
      && rest == f.(rows := rest.rows)
      && s.rowcount == start.rowcount && s.report == start.report
    case Exhausted =>
      && handed == f.rows
      && f.tail.Concludes?
      && s.rowcount == Count(f, start.rowcount) && s.report == ReportOf(f.tail.outcome)
    case Lost(_) => handed <= f.rows && s.report == start.report
    case NoResult => false
  }

  /**
   * However the rows are fetched, and whatever else the connection does in between, those
   * handed out are a prefix of the list: with the rest still ahead while the result is
   * open, all of them once it is exhausted, and a prefix even after a failure. The row
   * count and the report are those the stream ended with.
   */
  lemma {:induction false} FetchingConservesRows(s: FetchState, turns: seq<Turn>)
    requires s.shelf.Open?
    ensures Conserved(s.shelf.future, s, Fetches(s, turns).state, Handed(Fetches(s, turns).answers))
  {
    if turns == [] {
    } else {
      var init := turns[..|turns| - 1];
      FetchingConservesRows(s, init);
      var before, run := Fetches(s, init), Fetches(s, turns);
      if turns[|turns| - 1].Ask? {
        assert run.answers[..|run.answers| - 1] == before.answers;
        OneMoreFetch(s.shelf.future, s, before.state, Handed(before.answers), turns[|turns| - 1].demand);
      }
    }
  }

  lemma OneMoreFetch(f: Future, start: FetchState, s: FetchState, handed: seq<Row>, d: Demand)
    requires Conserved(f, start, s, handed)
    ensures var (answer, after) := Fetch(s, d);
            Conserved(f, start, after, handed + RowsIn(answer))
  {
    hide Take, Conserved;
    assert handed + [] == handed;
    match d
    case FetchOne => TakeConserves(f, start, s, handed, Some(1));
    case FetchAll => TakeConserves(f, start, s, handed, None);
    case FetchMany(size) => TakeConserves(f, start, s, handed, Some(if size < 0 then 0 else size));
  }

  lemma TakeConserves(f: Future, start: FetchState, s: FetchState, handed: seq<Row>, wanted: Option<nat>)
    requires Conserved(f, start, s, handed)
    ensures var (answer, after) := Take(s, wanted);
            Conserved(f, start, after, handed + RowsIn(answer))
  {
    assert handed + [] == handed;
    if s.shelf.Open? {
      SettleConserves(f, start, s, handed);
      SettleCloses(s);
      hide Settle;
      var rows := s.shelf.future.rows;
      if wanted.Some? && wanted.value <= |rows| {
        assert rows[..wanted.value] + rows[wanted.value..] == rows;
      }
    }
  }

  lemma SettleCloses(s: FetchState)
    requires s.shelf.Open?
    ensures Settle(s).shelf.Exhausted? || Settle(s).shelf.Lost?
  {
    hide ObserveEnd, Enter, Translate;
  }

  lemma SettleConserves(f: Future, start: FetchState, s: FetchState, handed: seq<Row>)
    requires s.shelf.Open? && Conserved(f, start, s, handed)
    ensures Conserved(f, start, Settle(s), if Settle(s).shelf.Lost? then handed else handed + s.shelf.future.rows)
  {
    hide ObserveEnd, Enter, Translate;
  }

  /** A fetch answered with fewer rows than it asked for leaves the result exhausted. */
  lemma ShortAnswerExhausts(s: FetchState, d: Demand)
    requires Fetch(s, d).0.Success?
    requires d.FetchAll? || |Fetch(s, d).0.value| < if d.FetchOne? then 1 else d.size
    ensures Fetch(s, d).1.shelf.Exhausted?
  {
  }

  // ---- independence of batching ----

  /** The same parse up to how rows were cut into batches. */
  ghost predicate Alike(p: Parse, q: Parse) {
    && |p.done| == |q.done|
    && (forall i :: 0 <= i < |p.done| ==> AlikeBlocks(p.done[i], q.done[i]))
    && (p.open.Some? <==> q.open.Some?)
    && (p.open.Some? ==> AlikeBlocks(p.open.value, q.open.value) && p.open.value.SetBlock?
                         && RowCount(p.open.value.batches) == RowCount(q.open.value.batches))
  }

  predicate AlikeBlocks(b: Block, c: Block) {
    match b
    case UpdateBlock(_) => c == b
    case SetBlock(role, columns, _) => c.SetBlock? && c.role == role && c.columns == columns
  }

  lemma {:induction false} AlikePrimaries(a: seq<Block>, b: seq<Block>)
    requires |a| == |b| && forall i :: 0 <= i < |a| ==> AlikeBlocks(a[i], b[i])
    ensures Primaries(a) == Primaries(b) && (Queried(a) <==> Queried(b))
  {
    if a != [] {
      var n := |a| - 1;
      AlikePrimaries(a[..n], b[..n]);
      assert a == a[..n] + [a[n]] && b == b[..n] + [b[n]];
      assert Queried(a) <==> Queried(a[..n]) || IsQuery(a[n]);
      assert Queried(b) <==> Queried(b[..n]) || IsQuery(b[n]);
    }
  }

  ghost predicate AlikeMoves(m: Move, n: Move) {
    match (m, n)
    case (Refused, Refused) => true
    case (Final(o1), Final(o2)) => o1 == o2
    case (Delivered(p, e1), Delivered(q, e2)) => e1 == e2 && Alike(p, q)
    case _ => false
  }

  /** From parses that are alike, a response is judged alike and leads to parses alike. */
  lemma AlikeAdvance(cfg: Config, p: Parse, q: Parse, r: Response)
    requires ParseOk(cfg, p) && ParseOk(cfg, q) && Alike(p, q)
    ensures AlikeMoves(Advance(cfg, p, r), Advance(cfg, q, r))
  {
    AlikePrimaries(p.done, q.done);
    match r.event
    case RowsEvent(_, _) => AlikeRows(cfg, p, q, r);
    case EndEvent(_) => AlikeEnd(cfg, p, q, r);
    case NoEvent =>
    case _ => AlikeStep(cfg, p, q, r);
  }

  lemma AlikeRows(cfg: Config, p: Parse, q: Parse, r: Response)
    requires ParseOk(cfg, p) && ParseOk(cfg, q) && Alike(p, q) && r.event.RowsEvent?
    ensures AlikeMoves(Advance(cfg, p, r), Advance(cfg, q, r))
  {
    hide Sentence, InLimits, BatchOk, DecodeBatch, DecodeColumns, BlockOk;
    if p.open.Some? {
      RowCountSnoc(p.open.value.batches, r.event.rows);
      RowCountSnoc(q.open.value.batches, r.event.rows);
    }
  }

  lemma AlikeEnd(cfg: Config, p: Parse, q: Parse, r: Response)
    requires ParseOk(cfg, p) && ParseOk(cfg, q) && Alike(p, q) && r.event.EndEvent?
    requires Queried(p.done) <==> Queried(q.done)
    ensures AlikeMoves(Advance(cfg, p, r), Advance(cfg, q, r))
  {
    hide Sentence, InLimits, DecodeOutcome, DecodeStatus, Queried, BlockOk, AlikeBlocks;
  }

  lemma AlikeStep(cfg: Config, p: Parse, q: Parse, r: Response)
    requires ParseOk(cfg, p) && ParseOk(cfg, q) && Alike(p, q)
    requires r.event.StartEvent? || r.event.UpdateEvent? || r.event.SetEndEvent?
    requires Primaries(p.done) == Primaries(q.done)
    ensures AlikeMoves(Advance(cfg, p, r), Advance(cfg, q, r))
  {
    hide Sentence, InLimits, ColumnsOk, DecodeColumns, CountsOk, DecodeCounts, Primaries, BlockOk;
    assert p.done != [] ==> AlikeBlocks(p.done[|p.done| - 1], q.done[|p.done| - 1]);
  }

  lemma RowCountSnoc(batches: seq<seq<WireRow>>, batch: seq<WireRow>)
    ensures RowCount(batches + [batch]) == RowCount(batches) + |batch|
  {
    assert (batches + [batch])[..|batches|] == batches;
  }

  lemma {:induction false} AlikeReads(cfg: Config, p: Parse, q: Parse, rs: seq<Response>, ending: Ending)
    requires ParseOk(cfg, p) && ParseOk(cfg, q) && Alike(p, q)
    ensures Read(cfg, p, rs, ending) == Read(cfg, q, rs, ending)
    decreases |rs|
  {
    hide Sentence, Advance, Alike, ParseOk;
    if rs != [] {
      AlikeAdvance(cfg, p, q, rs[0]);
      if Advance(cfg, p, rs[0]).Delivered? {
        AdvanceKeepsParse(cfg, p, rs[0]);
        AdvanceKeepsParse(cfg, q, rs[0]);
        AlikeReads(cfg, Advance(cfg, p, rs[0]).parse, Advance(cfg, q, rs[0]).parse, rs[1..], ending);
      }
    }
  }

  /** Row batches of the open result set, each acceptable on its own. */
  ghost predicate BatchesOf(cfg: Config, p: Parse, batches: seq<Response>)
    requires ParseOk(cfg, p)
  {
    && p.open.Some?
    && forall r | r in batches ::
         && r.event.RowsEvent?
         && r.event.resultId == |p.done| + 1
         && InLimits(cfg, r)
         && BatchOk(cfg, DecodeColumns(cfg, p.open.value.columns), r.event.rows)
  }

  /** The wire rows of a run of batches, one after the other. */
  function Joined(batches: seq<Response>): seq<WireRow> {
    if batches == [] then []
    else (if batches[0].event.RowsEvent? then batches[0].event.rows else []) + Joined(batches[1..])
  }

  /** The open parse after that many more rows, all in one batch. */
  function WithRows(p: Parse, rows: seq<WireRow>): Parse
    requires p.open.Some? && p.open.value.SetBlock?
  {
    p.(open := Some(p.open.value.(batches := p.open.value.batches + [rows])))
  }

  lemma WithRowsOk(cfg: Config, p: Parse, rows: seq<WireRow>)
    requires ParseOk(cfg, p) && p.open.Some?
    requires BatchOk(cfg, DecodeColumns(cfg, p.open.value.columns), rows)
    ensures ParseOk(cfg, WithRows(p, rows))
  {
    hide Sentence;
    var b := p.open.value;
    SentenceInit(cfg, p.done, b);
    BatchSnocOk(cfg, b, rows);
    SentenceSnoc(cfg, p.done, WithRows(p, rows).open.value);
  }

  lemma {:induction false} JoinedOk(cfg: Config, columns: seq<Column>, batches: seq<Response>)
    requires forall r | r in batches :: r.event.RowsEvent? && BatchOk(cfg, columns, r.event.rows)
    ensures BatchOk(cfg, columns, Joined(batches))
  {
    hide DecodeRow;
    if batches != [] {
      assert batches[0] in batches;
      assert forall r | r in batches[1..] :: r in batches;
      JoinedOk(cfg, columns, batches[1..]);
    }
  }

  /** What lies ahead of some batches is their rows, joined, and then what lies ahead of the rest. */
  lemma {:induction false} FutureOfBatches(
    cfg: Config, p: Parse, batches: seq<Response>, rest: seq<Response>, ending: Ending)
    requires ParseOk(cfg, p) && BatchesOf(cfg, p, batches)
    ensures BatchOk(cfg, DecodeColumns(cfg, p.open.value.columns), Joined(batches))
    ensures ParseOk(cfg, WithRows(p, Joined(batches)))
    ensures var columns := DecodeColumns(cfg, p.open.value.columns);
            var f := FutureOf(Read(cfg, WithRows(p, Joined(batches)), rest, ending));
            FutureOf(Read(cfg, p, batches + rest, ending)) ==
            f.(rows := AdaptRows(DecodeBatch(cfg, columns, Joined(batches))) + f.rows)
    decreases |batches|
  {
    hide Sentence, InLimits, DecodeRow, AdaptValue, ColumnsOk;
    var columns := DecodeColumns(cfg, p.open.value.columns);
    JoinedOk(cfg, columns, batches);
    WithRowsOk(cfg, p, Joined(batches));
    if batches == [] {
      assert batches + rest == rest;
      AlikeReads(cfg, p, WithRows(p, []), rest, ending) by { RowCountSnoc(p.open.value.batches, []); }
    } else {
      FutureOfMoreBatches(cfg, p, batches, rest, ending);
    }
  }

  lemma {:induction false} FutureOfMoreBatches(
    cfg: Config, p: Parse, batches: seq<Response>, rest: seq<Response>, ending: Ending)
    requires ParseOk(cfg, p) && BatchesOf(cfg, p, batches) && batches != []
    requires BatchOk(cfg, DecodeColumns(cfg, p.open.value.columns), Joined(batches))
    requires ParseOk(cfg, WithRows(p, Joined(batches)))
    ensures var columns := DecodeColumns(cfg, p.open.value.columns);
            var f := FutureOf(Read(cfg, WithRows(p, Joined(batches)), rest, ending));
            FutureOf(Read(cfg, p, batches + rest, ending)) ==
            f.(rows := AdaptRows(DecodeBatch(cfg, columns, Joined(batches))) + f.rows)
    decreases |batches|, 0
  {
    hide Sentence, InLimits, DecodeRow, AdaptValue, ColumnsOk, BatchOk, Alike, FutureOf, Read, AdaptRows, DecodeBatch;
    var columns := DecodeColumns(cfg, p.open.value.columns);
    var r, more := batches[0], batches[1..];
    assert r in batches;
    assert forall b | b in more :: b in batches;
    var p' := WithRows(p, r.event.rows);
    FutureOfOneBatch(cfg, p, r, more + rest, ending);
    assert batches + rest == [r] + (more + rest);
    FutureOfBatches(cfg, p', more, rest, ending);
    AlikeRebatched(p, r.event.rows, Joined(more));
    AlikeReads(cfg, WithRows(p', Joined(more)), WithRows(p, Joined(batches)), rest, ending);
    DecodeJoin(cfg, columns, r.event.rows, Joined(more));
    var f := FutureOf(Read(cfg, WithRows(p, Joined(batches)), rest, ending));
    var a, b := AdaptRows(DecodeBatch(cfg, columns, r.event.rows)), AdaptRows(DecodeBatch(cfg, columns, Joined(more)));
    assert a + (b + f.rows) == (a + b) + f.rows;
  }

  lemma AlikeRebatched(p: Parse, a: seq<WireRow>, b: seq<WireRow>)
    requires p.open.Some? && p.open.value.SetBlock?
    ensures Alike(WithRows(WithRows(p, a), b), WithRows(p, a + b))
  {
    hide RowCount;
    var batches := p.open.value.batches;
    var q := WithRows(WithRows(p, a), b);
    assert q.done == p.done && q.open.value.batches == (batches + [a]) + [b];
    RowCountSnoc(batches + [a], b);
    RowCountSnoc(batches, a);
    RowCountSnoc(batches, a + b);
  }

  /** One acceptable batch contributes its rows and nothing else. */
  lemma FutureOfOneBatch(cfg: Config, p: Parse, r: Response, rs: seq<Response>, ending: Ending)
    requires ParseOk(cfg, p) && BatchesOf(cfg, p, [r])
    ensures var columns := DecodeColumns(cfg, p.open.value.columns);
            && BatchOk(cfg, columns, r.event.rows)
            && ParseOk(cfg, WithRows(p, r.event.rows))
            && var f := FutureOf(Read(cfg, WithRows(p, r.event.rows), rs, ending));
               FutureOf(Read(cfg, p, [r] + rs, ending)) ==
               f.(rows := AdaptRows(DecodeBatch(cfg, columns, r.event.rows)) + f.rows)
  {
    hide Sentence, InLimits, DecodeRow, AdaptRow, ColumnsOk, BatchOk;
    assert r in [r];
    WithRowsOk(cfg, p, r.event.rows);
    AdvanceKeepsParse(cfg, p, r);
    assert ([r] + rs)[0] == r && ([r] + rs)[1..] == rs;
    var columns := DecodeColumns(cfg, p.open.value.columns);
    assert Advance(cfg, p, r) ==
           Delivered(WithRows(p, r.event.rows), Rows(|p.done| + 1, DecodeBatch(cfg, columns, r.event.rows)));
    var t := Read(cfg, p, [r] + rs, ending);
    assert t.events[1..] == Read(cfg, WithRows(p, r.event.rows), rs, ending).events;
  }

  lemma DecodeJoin(cfg: Config, columns: seq<Column>, a: seq<WireRow>, b: seq<WireRow>)
    requires BatchOk(cfg, columns, a) && BatchOk(cfg, columns, b) && BatchOk(cfg, columns, a + b)
    ensures AdaptRows(DecodeBatch(cfg, columns, a + b)) ==
            AdaptRows(DecodeBatch(cfg, columns, a)) + AdaptRows(DecodeBatch(cfg, columns, b))
  {
    hide DecodeRow;
  }

  /**
   * Two streams whose open result set carries the same rows in different batches, empty
   * ones included, and goes on alike, answer every interleaving of fetches alike.
   */
  lemma BatchingIsInvisible(
    cfg: Config, p: Parse, batches1: seq<Response>, batches2: seq<Response>, rest: seq<Response>,
    ending: Ending, executedAs: string, rowcount: int, ledger: Ledger, turns: seq<Turn>)
    requires ParseOk(cfg, p) && BatchesOf(cfg, p, batches1) && BatchesOf(cfg, p, batches2)
    requires Joined(batches1) == Joined(batches2)
    ensures var f1 := FutureOf(Read(cfg, p, batches1 + rest, ending));
            var f2 := FutureOf(Read(cfg, p, batches2 + rest, ending));
            Fetches(FetchState(Open(f1, executedAs), rowcount, NO_REPORT, ledger), turns)
            == Fetches(FetchState(Open(f2, executedAs), rowcount, NO_REPORT, ledger), turns)
  {
    hide Fetches, Read, FutureOf, Sentence, BlockOk;
    FutureOfBatches(cfg, p, batches1, rest, ending);
    FutureOfBatches(cfg, p, batches2, rest, ending);
  }
}
