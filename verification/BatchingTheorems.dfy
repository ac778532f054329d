/** How the server cuts rows into batches cannot be seen by any program. */
module BatchingTheorems {
  import opened Wrappers
  import opened Errors
  import opened Protocol
  import opened Grammar
  import opened Transcripts
  import opened Transactions
  import opened Requests
  import opened Fetching
  import opened CursorStreams
  import opened Executions
  import opened Worlds

  /** The same responses, but for the batches of one result set, which carry the same rows. */
  ghost predicate Recut(
    cfg: Config, rs1: seq<Response>, rs2: seq<Response>,
    before: seq<Response>, batches1: seq<Response>, batches2: seq<Response>, after: seq<Response>)
  {
    && rs1 == before + (batches1 + after) && rs2 == before + (batches2 + after)
    && Steps(cfg, before).Some?
    && BatchesOf(cfg, Steps(cfg, before).value.0, batches1)
    && BatchesOf(cfg, Steps(cfg, before).value.0, batches2)
    && Joined(batches1) == Joined(batches2)
  }

  ghost predicate Rebatched(cfg: Config, rs1: seq<Response>, rs2: seq<Response>) {
    exists before, batches1, batches2, after :: Recut(cfg, rs1, rs2, before, batches1, batches2, after)
  }

  function After(es: seq<Event>, t: Transcript): Transcript {
    Transcript(es + t.events, t.verdict)
  }

  /** What lies ahead of equal futures, behind the same events, is equal. */
  lemma {:induction false} FutureAfter(es: seq<Event>, t1: Transcript, t2: Transcript)
    requires FutureOf(t1) == FutureOf(t2)
    ensures FutureOf(After(es, t1)) == FutureOf(After(es, t2))
    decreases |es|
  {
    hide FutureOf, Behind;
    if es == [] {
      assert After(es, t1) == t1 && After(es, t2) == t2;
    } else {
      FutureAfter(es[1..], t1, t2);
      FutureBehind(es[0], es[1..], t1);
      FutureBehind(es[0], es[1..], t2);
      assert [es[0]] + es[1..] == es;
    }
  }

  /** One more event in front. */
  function Behind(e: Event, f: Future): Future {
    match e
    case Rows(_, rows) => f.(rows := AdaptRows(rows) + f.rows)
    case SetEnded(_, rowCount) => f.(count := if f.count.Some? then f.count else Some(rowCount))
    case Ended(outcome) => Future([], None, Concludes(outcome))
    case _ => Future([], None, Breaks(InternalError))
  }

  lemma FutureBehind(e: Event, es: seq<Event>, t: Transcript)
    ensures FutureOf(After([e] + es, t)) == Behind(e, FutureOf(After(es, t)))
  {
    hide AdaptRows;
    assert ([e] + es + t.events)[1..] == es + t.events;
  }

  lemma {:induction false} OpeningAfter(
    es: seq<Event>, t1: Transcript, t2: Transcript, id: string, rowcount: int, l: Ledger)
    requires FutureOf(t1) == FutureOf(t2) && exists e :: e in es && e.Started?
    ensures OpenExecution(After(es, t1), id, rowcount, l) == OpenExecution(After(es, t2), id, rowcount, l)
    decreases |es|
  {
    hide FutureOf, UpdateRowcount, ObserveEnd, Enter;
    FutureAfter(es[1..], t1, t2);
    assert (es + t1.events)[1..] == es[1..] + t1.events && (es + t2.events)[1..] == es[1..] + t2.events;
    if es[0].Updated? {
      assert exists e :: e in es[1..] && e.Started?;
      OpeningAfter(es[1..], t1, t2, id, UpdateRowcount(es[0].counts), l);
    }
  }

  lemma StartedIsDelivered(cfg: Config, rs: seq<Response>)
    requires Steps(cfg, rs).Some? && Steps(cfg, rs).value.0.open.Some?
    ensures exists e :: e in Steps(cfg, rs).value.1 && e.Started?
  {
    hide Sentence, BlockOk, Steps, Events, DecodeColumns, DecodeBatch;
    StepsSpell(cfg, rs);
    var (p, es) := Steps(cfg, rs).value;
    DoneOk(cfg, p);
    var started := OpenEvents(cfg, |p.done| + 1, p.open.value);
    assert started[0].Started? && started[0] in started && started[0] in es;
  }

  /** Opening an execution comes to the same whatever the batches. */
  lemma RebatchedOpensAlike(
    cfg: Config, rs1: seq<Response>, rs2: seq<Response>, ending: Ending, id: string, rowcount: int, l: Ledger)
    requires Rebatched(cfg, rs1, rs2)
    ensures OpenExecution(Whole(cfg, rs1, ending), id, rowcount, l)
            == OpenExecution(Whole(cfg, rs2, ending), id, rowcount, l)
  {
    hide Sentence, BlockOk, Steps, Read, FutureOf, OpenExecution, BatchOk, InLimits, AdaptRows, DecodeBatch;
    var before, batches1, batches2, after :| Recut(cfg, rs1, rs2, before, batches1, batches2, after);
    var (p, es) := Steps(cfg, before).value;
    StartedIsDelivered(cfg, before);
    assert rs1[..|before|] == before && rs1[|before|..] == batches1 + after;
    assert rs2[..|before|] == before && rs2[|before|..] == batches2 + after;
    ReadAfterSteps(cfg, rs1, ending, |before|);
    ReadAfterSteps(cfg, rs2, ending, |before|);
    FutureOfBatches(cfg, p, batches1, after, ending);
    FutureOfBatches(cfg, p, batches2, after, ending);
    OpeningAfter(es, Read(cfg, p, batches1 + after, ending), Read(cfg, p, batches2 + after, ending), id, rowcount, l);
  }

  // ---- programs ----

  ghost predicate AlikeReplies(terms: Terms, a: ExecuteReply, b: ExecuteReply) {
    || a == b
    || (&& a.begin == b.begin && a.requestBytes == b.requestBytes
        && a.call.CallAccepted? && b.call.CallAccepted? && a.call.ending == b.call.ending
        && Rebatched(Reader(terms), a.call.responses, b.call.responses))
  }

  ghost predicate AlikeBatches(terms: Terms, a: seq<Batch>, b: seq<Batch>) {
    && |a| == |b|
    && forall i :: 0 <= i < |a| ==> a[i].parameters == b[i].parameters && AlikeReplies(terms, a[i].reply, b[i].reply)
  }

  /** The same call; only the server may have cut its rows otherwise. */
  ghost predicate AlikeCalls(terms: Terms, a: Call, b: Call) {
    match (a, b)
    case (Execute(i, o1, p1, r1), Execute(j, o2, p2, r2)) =>
      i == j && o1 == o2 && p1 == p2 && AlikeReplies(terms, r1, r2)
    case (ExecuteMany(i, o1, Some(b1)), ExecuteMany(j, o2, Some(b2))) =>
      i == j && o1 == o2 && AlikeBatches(terms, b1, b2)
    case _ => a == b
  }

  lemma AlikeLaunch(terms: Terms, l: Ledger, id: string, a: ExecuteReply, b: ExecuteReply)
    requires AlikeReplies(terms, a, b)
    ensures LaunchCall(Reader(terms), l, a.call, id) == LaunchCall(Reader(terms), l, b.call, id)
  {
    hide OpenExecution, Whole, Rebatched, Enter, Reader;
    if a != b {
      RebatchedOpensAlike(
        Reader(terms), a.call.responses, b.call.responses, a.call.ending, id, -1, Enter(l, Action.Execute(id)));
    }
  }

  lemma AlikeExecutions(
    terms: Terms, d: Desk, l: Ledger, slotTaken: bool, operation: string, p: Parameters,
    a: ExecuteReply, b: ExecuteReply)
    requires SoundParameters(terms, p) && AlikeReplies(terms, a, b)
    ensures ExecuteOn(terms, d, l, slotTaken, operation, p, a) == ExecuteOn(terms, d, l, slotTaken, operation, p, b)
  {
    hide LaunchCall, AdmitUnder, Refusal, SoundArgument, AcceptedOutputFeatures, Reader, Rebatched, Dropped;
    var start := AdmitUnder(terms.info, Dropped(l, d.shelf.Open?), a.begin);
    if start.id.Success? {
      AlikeLaunch(terms, start.ledger, start.id.value, a, b);
    }
  }

  lemma {:induction false} AlikeEach(
    terms: Terms, d: Desk, l: Ledger, slotTaken: bool, operation: string, a: seq<Batch>, b: seq<Batch>, total: int)
    requires SoundBatches(terms, a) && SoundBatches(terms, b) && AlikeBatches(terms, a, b)
    ensures ExecuteEach(terms, d, l, slotTaken, operation, a, total)
            == ExecuteEach(terms, d, l, slotTaken, operation, b, total)
    decreases |a|
  {
    hide ExecuteOn, AlikeReplies, SoundParameters;
    if a != [] {
      assert a[0] in a && b[0] in b;
      AlikeExecutions(terms, d, l, slotTaken, operation, a[0].parameters, a[0].reply, b[0].reply);
      var o := ExecuteForCount(terms, d, l, slotTaken, operation, a[0]);
      AlikeEach(terms, o.desk, o.ledger, slotTaken, operation, a[1..], b[1..], Plus(total, o.desk.rowcount));
    }
  }

  lemma AlikeSteps(w: World, a: Call, b: Call)
    requires SoundCall(w.terms, a) && SoundCall(w.terms, b) && AlikeCalls(w.terms, a, b)
    ensures Step(w, a) == Step(w, b)
  {
    hide ExecuteOn, ExecuteEach, SlotTaken, AlikeReplies, SoundParameters, Running;
    if CursorOf(a).Some? && CursorOf(a).value < |w.desks| {
      var i := CursorOf(a).value;
      var d := w.desks[i];
      match (a, b)
      case (Execute(_, operation, p, r1), Execute(_, _, _, r2)) =>
        AlikeExecutions(w.terms, d, w.ledger, SlotTaken(w, i), operation, p, r1, r2);
      case (ExecuteMany(_, operation, Some(b1)), ExecuteMany(_, _, Some(b2))) =>
        AlikeEach(w.terms, d, w.ledger, SlotTaken(w, i), operation, b1, b2, 0);
      case _ =>
    }
  }

  /**
   * Two programs that make the same calls, and whose server streams the same rows in other
   * batches, empty ones included, get the same answers to every call and are left with the
   * same cursors, transaction and log.
   */
  lemma {:induction false} BatchingIsInvisibleToPrograms(w: World, a: seq<Call>, b: seq<Call>)
    requires SoundProgram(w.terms, a) && SoundProgram(w.terms, b)
    requires |a| == |b| && forall i :: 0 <= i < |a| ==> AlikeCalls(w.terms, a[i], b[i])
    ensures Play(w, a) == Play(w, b)
  {
    hide Step, AlikeCalls, SoundCall;
    if a != [] {
      var n := |a| - 1;
      assert a[n] in a && b[n] in b;
      BatchingIsInvisibleToPrograms(w, a[..n], b[..n]);
      AlikeSteps(Play(w, a[..n]).world, a[n], b[n]);
    }
  }
}
