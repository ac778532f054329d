/** Whole runs of an Execute stream, and the theorem that it accepts exactly its grammar. */
module Transcripts {
  import opened Wrappers
  import opened Errors
  import opened Protocol
  import opened Grammar

  datatype Verdict = Completed | Failed(error: Error)

  /** The events a reader gets, in order, and what it gets after the last of them. */
  datatype Transcript = Transcript(events: seq<Event>, verdict: Verdict)

  function EndingError(ending: Ending): Error {
    match ending
    case Clean => ProtocolError
    case Broken(details) => RpcError(details)
  }

  /** Reading on from a partial parse; an end counts only if the call ends cleanly after it. */
  function Read(cfg: Config, p: Parse, rs: seq<Response>, ending: Ending): Transcript
    requires ParseOk(cfg, p)
    decreases |rs|
  {
    if rs == [] then Transcript([], Failed(EndingError(ending)))
    else
      match Advance(cfg, p, rs[0])
      case Refused => Transcript([], Failed(ProtocolError))
      case Delivered(p', e) =>
        AdvanceKeepsParse(cfg, p, rs[0]);
        var rest := Read(cfg, p', rs[1..], ending);
        Transcript([e] + rest.events, rest.verdict)
      case Final(outcome) =>
        if |rs| > 1 then Transcript([], Failed(ProtocolError))
        else if ending.Clean? then Transcript([Ended(outcome)], Completed)
        else Transcript([], Failed(EndingError(ending)))
  }

  // ---- a partial parse as a relation between responses and events ----

  function ParseWire(p: Parse): seq<WireEvent>
    requires p.open.Some? ==> p.open.value.SetBlock?
  {
    Wire(p.done) + if p.open.Some? then OpenWire(|p.done| + 1, p.open.value) else []
  }

  function ParseEvents(cfg: Config, p: Parse): seq<Event>
    requires ParseOk(cfg, p)
  {
    DoneOk(cfg, p);
    Events(cfg, p.done) + if p.open.Some? then OpenEvents(cfg, |p.done| + 1, p.open.value) else []
  }

  lemma DoneOk(cfg: Config, p: Parse)
    requires ParseOk(cfg, p)
    ensures Sentence(cfg, p.done)
  {
    if p.open.Some? {
      SentenceInit(cfg, p.done, p.open.value);
    } else {
      assert Seen(p) == p.done;
    }
  }

  ghost predicate Extends(cfg: Config, p: Parse, p': Parse, w: WireEvent, e: Event)
    requires ParseOk(cfg, p)
  {
    && ParseOk(cfg, p')
    && ParseWire(p') == ParseWire(p) + [w]
    && ParseEvents(cfg, p') == ParseEvents(cfg, p) + [e]
  }

  /** One accepted response extends the wire reading and the delivered events by one. */
  lemma AdvanceExtends(cfg: Config, p: Parse, r: Response)
    requires ParseOk(cfg, p) && Advance(cfg, p, r).Delivered?
    ensures Extends(cfg, p, Advance(cfg, p, r).parse, r.event, Advance(cfg, p, r).event)
  {
    AdvanceKeepsParse(cfg, p, r);
    match r.event
    case StartEvent(_, _, _, _) => StartExtends(cfg, p, r);
    case RowsEvent(_, _) => RowsExtends(cfg, p, r);
    case UpdateEvent(_, _) => UpdateExtends(cfg, p, r);
    case SetEndEvent(_, _) => SetEndExtends(cfg, p, r);
    case _ =>
  }

  lemma StartExtends(cfg: Config, p: Parse, r: Response)
    requires ParseOk(cfg, p) && r.event.StartEvent? && Advance(cfg, p, r).Delivered?
    requires ParseOk(cfg, Advance(cfg, p, r).parse)
    ensures Extends(cfg, p, Advance(cfg, p, r).parse, r.event, Advance(cfg, p, r).event)
  {
    hide Sentence, PrimaryAllowed, InLimits, DecodeColumn;
    var p' := Advance(cfg, p, r).parse;
    DoneOk(cfg, p);
    assert ParseWire(p') == Wire(p.done) + [r.event];
    assert ParseEvents(cfg, p') == ParseEvents(cfg, p) + [Advance(cfg, p, r).event];
  }

  lemma RowsExtends(cfg: Config, p: Parse, r: Response)
    requires ParseOk(cfg, p) && r.event.RowsEvent? && Advance(cfg, p, r).Delivered?
    requires ParseOk(cfg, Advance(cfg, p, r).parse)
    ensures Extends(cfg, p, Advance(cfg, p, r).parse, r.event, Advance(cfg, p, r).event)
  {
    hide Sentence, BlockOk, OpenWire, OpenEvents, InLimits, BatchOk, ColumnsOk, DecodeColumns, DecodeBatch, Wire,
         Events;
    var p' := Advance(cfg, p, r).parse;
    DoneOk(cfg, p);
    OpenSnoc(cfg, |p.done| + 1, p.open.value, r.event.rows);
  }

  lemma UpdateExtends(cfg: Config, p: Parse, r: Response)
    requires ParseOk(cfg, p) && r.event.UpdateEvent? && Advance(cfg, p, r).Delivered?
    requires ParseOk(cfg, Advance(cfg, p, r).parse)
    ensures Extends(cfg, p, Advance(cfg, p, r).parse, r.event, Advance(cfg, p, r).event)
  {
    hide Sentence, PrimaryAllowed, InLimits, CountsOk, Wire, Events;
    DoneSnoc(cfg, p, Advance(cfg, p, r).parse);
  }

  lemma SetEndExtends(cfg: Config, p: Parse, r: Response)
    requires ParseOk(cfg, p) && r.event.SetEndEvent? && Advance(cfg, p, r).Delivered?
    requires ParseOk(cfg, Advance(cfg, p, r).parse)
    ensures Extends(cfg, p, Advance(cfg, p, r).parse, r.event, Advance(cfg, p, r).event)
  {
    hide Sentence, BlockOk, InLimits, OpenWire, OpenEvents, RowCount, Wire, Events;
    DoneSnoc(cfg, p, Advance(cfg, p, r).parse);
  }

  lemma DoneSnoc(cfg: Config, p: Parse, p': Parse)
    requires ParseOk(cfg, p) && ParseOk(cfg, p')
    requires |p'.done| > 0 && p'.done[..|p'.done| - 1] == p.done && p'.open.None?
    ensures var b := p'.done[|p.done|];
            && BlockOk(cfg, b)
            && ParseWire(p') == Wire(p.done) + BlockWire(|p.done| + 1, b)
            && ParseEvents(cfg, p') == (DoneOk(cfg, p); Events(cfg, p.done)) + BlockEvents(cfg, |p.done| + 1, b)
  {
    DoneOk(cfg, p);
    DoneOk(cfg, p');
  }

  lemma OpenSnoc(cfg: Config, id: int, b: Block, rows: seq<WireRow>)
    requires b.SetBlock? && BlockOk(cfg, b) && BatchOk(cfg, DecodeColumns(cfg, b.columns), rows)
    ensures var b' := b.(batches := b.batches + [rows]);
            && BlockOk(cfg, b')
            && OpenWire(id, b') == OpenWire(id, b) + [RowsEvent(id, rows)]
            && OpenEvents(cfg, id, b') ==
               OpenEvents(cfg, id, b) + [Rows(id, DecodeBatch(cfg, DecodeColumns(cfg, b.columns), rows))]
  {
    BatchSnocOk(cfg, b, rows);
  }

  // ---- reading backwards: every parse is reached by exactly its own responses ----

  /** Reading a whole sequence of responses from the start, none of them the end. */
  function Steps(cfg: Config, rs: seq<Response>): (r: Option<(Parse, seq<Event>)>)
    ensures r.Some? ==> ParseOk(cfg, r.value.0)
  {
    if rs == [] then Some((EMPTY, []))
    else
      match Steps(cfg, rs[..|rs| - 1])
      case None => None
      case Some((p, es)) =>
        match Advance(cfg, p, rs[|rs| - 1])
        case Delivered(p', e) =>
          AdvanceKeepsParse(cfg, p, rs[|rs| - 1]);
          Some((p', es + [e]))
        case _ => None
  }

  ghost predicate Spells(cfg: Config, rs: seq<Response>, wire: seq<WireEvent>) {
    && |rs| == |wire|
    && forall i :: 0 <= i < |rs| ==> InLimits(cfg, rs[i]) && rs[i].event == wire[i]
  }

  lemma {:induction false} StepsSpell(cfg: Config, rs: seq<Response>)
    requires Steps(cfg, rs).Some?
    ensures var (p, es) := Steps(cfg, rs).value;
            Spells(cfg, rs, ParseWire(p)) && es == ParseEvents(cfg, p)
  {
    hide Sentence, Advance, ParseWire, ParseEvents, InLimits;
    if rs == [] {
      EmptyParse(cfg);
    } else {
      var init, last := rs[..|rs| - 1], rs[|rs| - 1];
      StepsSpell(cfg, init);
      var (p, es) := Steps(cfg, init).value;
      AdvanceExtends(cfg, p, last);
      DeliveredInLimits(cfg, p, last);
    }
  }

  lemma EmptyParse(cfg: Config)
    ensures ParseOk(cfg, EMPTY) && ParseWire(EMPTY) == [] && ParseEvents(cfg, EMPTY) == []
  {
  }

  lemma DeliveredInLimits(cfg: Config, p: Parse, r: Response)
    requires ParseOk(cfg, p) && !Advance(cfg, p, r).Refused?
    ensures InLimits(cfg, r)
  {
    hide Sentence, InLimits, EndOk, PrimaryAllowed, CountsOk, BatchOk, ColumnsOk;
  }

  /** The parse one event earlier, and the wire event that leads on from it. */
  function Before(p: Parse): (Parse, WireEvent)
    requires p != EMPTY && (p.open.Some? ==> p.open.value.SetBlock?)
  {
    if p.open.Some? then
      var b, id := p.open.value, |p.done| + 1;
      if b.batches == [] then
        (Parse(p.done, None), StartEvent(id, b.role, ParentOf(b.role, id), b.columns))
      else
        var n := |b.batches| - 1;
        (Parse(p.done, Some(b.(batches := b.batches[..n]))), RowsEvent(id, b.batches[n]))
    else
      var n := |p.done| - 1;
      match p.done[n]
      case UpdateBlock(counts) => (Parse(p.done[..n], None), UpdateEvent(n + 1, counts))
      case SetBlock(_, _, batches) => (Parse(p.done[..n], Some(p.done[n])), SetEndEvent(n + 1, RowCount(batches)))
  }

  lemma BeforeIsParse(cfg: Config, p: Parse)
    requires ParseOk(cfg, p) && p != EMPTY
    ensures ParseOk(cfg, Before(p).0)
  {
    hide Sentence;
    DoneOk(cfg, p);
    var p0 := Before(p).0;
    if p.open.Some? {
      SentenceInit(cfg, p.done, p.open.value);
      if p.open.value.batches == [] {
        assert Seen(p0) == p.done;
      } else {
        ShorterBlockOk(cfg, p.open.value);
        SentenceSnoc(cfg, p.done, p0.open.value);
      }
    } else {
      var n := |p.done| - 1;
      assert p.done == p.done[..n] + [p.done[n]];
      SentenceInit(cfg, p.done[..n], p.done[n]);
      assert Seen(p0) == p.done || Seen(p0) == p.done[..n];
    }
  }

  lemma ShorterBlockOk(cfg: Config, b: Block)
    requires b.SetBlock? && BlockOk(cfg, b) && b.batches != []
    ensures BlockOk(cfg, b.(batches := b.batches[..|b.batches| - 1]))
    ensures BatchOk(cfg, DecodeColumns(cfg, b.columns), b.batches[|b.batches| - 1])
  {
    var n := |b.batches| - 1;
    assert b.batches[n] in b.batches;
    forall batch | batch in b.batches[..n] ensures BatchOk(cfg, DecodeColumns(cfg, b.columns), batch) {
      assert batch in b.batches;
    }
  }

  /** From the earlier parse, a response within the limits carrying that event leads back. */
  lemma AdvanceFromBefore(cfg: Config, p: Parse, r: Response)
    requires ParseOk(cfg, p) && p != EMPTY && ParseOk(cfg, Before(p).0)
    requires InLimits(cfg, r) && r.event == Before(p).1
    ensures Advance(cfg, Before(p).0, r).Delivered? && Advance(cfg, Before(p).0, r).parse == p
  {
    if p.open.Some? {
      AdvanceIntoOpen(cfg, p, r);
    } else {
      AdvanceIntoDone(cfg, p, r);
    }
  }

  lemma AdvanceIntoOpen(cfg: Config, p: Parse, r: Response)
    requires ParseOk(cfg, p) && p.open.Some? && ParseOk(cfg, Before(p).0)
    requires InLimits(cfg, r) && r.event == Before(p).1
    ensures Advance(cfg, Before(p).0, r).Delivered? && Advance(cfg, Before(p).0, r).parse == p
  {
    hide Sentence, PrimaryAllowed, InLimits, BatchOk, ColumnsOk, DecodeColumns, DecodeBatch, EndOk;
    var b := p.open.value;
    SentenceInit(cfg, p.done, b);
    if b.batches == [] {
      assert b == SetBlock(b.role, b.columns, []);
    } else {
      var n := |b.batches| - 1;
      ShorterBlockOk(cfg, b);
      assert b.batches[..n] + [b.batches[n]] == b.batches;
    }
  }

  lemma AdvanceIntoDone(cfg: Config, p: Parse, r: Response)
    requires ParseOk(cfg, p) && p != EMPTY && p.open.None? && ParseOk(cfg, Before(p).0)
    requires InLimits(cfg, r) && r.event == Before(p).1
    ensures Advance(cfg, Before(p).0, r).Delivered? && Advance(cfg, Before(p).0, r).parse == p
  {
    hide Sentence, PrimaryAllowed, InLimits, BatchOk, ColumnsOk, DecodeColumns, DecodeBatch, EndOk, CountsOk;
    var n := |p.done| - 1;
    assert Seen(p) == p.done == p.done[..n] + [p.done[n]];
    SentenceInit(cfg, p.done[..n], p.done[n]);
  }

  /** Responses that spell a parse are read to exactly that parse. */
  lemma {:induction false} SpellingSteps(cfg: Config, p: Parse, rs: seq<Response>)
    requires ParseOk(cfg, p) && Spells(cfg, rs, ParseWire(p))
    ensures Steps(cfg, rs) == Some((p, ParseEvents(cfg, p)))
    decreases |rs|
  {
    hide Sentence, Advance, ParseWire, ParseEvents, InLimits, Before;
    if p == EMPTY {
      EmptyParse(cfg);
    } else {
      BeforeIsParse(cfg, p);
      var p0 := Before(p).0;
      BeforeExtends(cfg, p);
      var init, last := rs[..|rs| - 1], rs[|rs| - 1];
      SpellingSteps(cfg, p0, init);
      AdvanceFromBefore(cfg, p, last);
      AdvanceExtends(cfg, p0, last);
    }
  }

  lemma BeforeExtends(cfg: Config, p: Parse)
    requires ParseOk(cfg, p) && p != EMPTY && ParseOk(cfg, Before(p).0)
    ensures ParseWire(p) == ParseWire(Before(p).0) + [Before(p).1]
  {
    hide Sentence, BlockOk;
    if p.open.Some? && p.open.value.batches != [] {
      var b, n := p.open.value, |p.open.value.batches| - 1;
      assert OpenWire(|p.done| + 1, b) ==
             OpenWire(|p.done| + 1, b.(batches := b.batches[..n])) + [RowsEvent(|p.done| + 1, b.batches[n])];
    } else if p.open.Some? {
      assert ParseWire(p) == Wire(p.done) + [Before(p).1];
    }
  }

  // ---- the main theorems about whole runs ----

  /** After any number of accepted responses, the transcript is what was delivered, then the rest. */
  lemma {:induction false} ReadAfterSteps(cfg: Config, rs: seq<Response>, ending: Ending, n: nat)
    requires n <= |rs| && Steps(cfg, rs[..n]).Some?
    ensures var (p, es) := Steps(cfg, rs[..n]).value;
            var rest := Read(cfg, p, rs[n..], ending);
            Read(cfg, EMPTY, rs, ending) == Transcript(es + rest.events, rest.verdict)
    decreases n
  {
    hide Sentence, Advance;
    if n == 0 {
      assert rs[n..] == rs;
    } else {
      assert rs[..n][..n - 1] == rs[..n - 1] && rs[..n][n - 1] == rs[n - 1];
      ReadAfterSteps(cfg, rs, ending, n - 1);
      var (p0, es0) := Steps(cfg, rs[..n - 1]).value;
      assert rs[n - 1..][0] == rs[n - 1] && rs[n - 1..][1..] == rs[n..];
    }
  }

  /** How far the reading gets: the longest prefix of responses that is all accepted. */
  function Accepted(cfg: Config, rs: seq<Response>): (n: nat)
    ensures n <= |rs| && Steps(cfg, rs[..n]).Some?
    ensures n < |rs| ==> Steps(cfg, rs[..n + 1]).None?
    decreases |rs|
  {
    if Steps(cfg, rs).Some? then
      assert rs[..|rs|] == rs;
      |rs|
    else
      assert rs != [];
      assert rs[..|rs|] == rs;
      var init := rs[..|rs| - 1];
      var n := Accepted(cfg, init);
      assert init[..n] == rs[..n];
      assert n < |init| ==> init[..n + 1] == rs[..n + 1];
      n
  }

  lemma StepsOfOneMore(cfg: Config, rs: seq<Response>, n: nat)
    requires n < |rs| && Steps(cfg, rs[..n]).Some?
    ensures Steps(cfg, rs[..n + 1]).Some? <==> Advance(cfg, Steps(cfg, rs[..n]).value.0, rs[n]).Delivered?
  {
    hide Advance, Sentence;
    assert rs[..n + 1][..n] == rs[..n] && rs[..n + 1][n] == rs[n];
  }

  /** Every transcript is the events of its longest accepted prefix, then at most one end. */
  lemma ReadIsAccepted(cfg: Config, rs: seq<Response>, ending: Ending)
    ensures var n := Accepted(cfg, rs);
            var (p, es) := Steps(cfg, rs[..n]).value;
            var t := Read(cfg, EMPTY, rs, ending);
            if n + 1 == |rs| && Advance(cfg, p, rs[n]).Final? && ending.Clean? then
              t == Transcript(es + [Ended(Advance(cfg, p, rs[n]).outcome)], Completed)
            else
              t.events == es && t.verdict.Failed?
  {
    hide Advance, Sentence;
    var n := Accepted(cfg, rs);
    ReadAfterSteps(cfg, rs, ending, n);
    if n < |rs| {
      StepsOfOneMore(cfg, rs, n);
      assert rs[n..][0] == rs[n];
    }
  }

  /** A sentence followed by a legal end, spelled within the limits. */
  ghost predicate Conforms(cfg: Config, blocks: seq<Block>, end: EndMessage, rs: seq<Response>) {
    && Sentence(cfg, blocks)
    && EndOk(cfg, blocks, end)
    && Spells(cfg, rs, Wire(blocks) + [EndEvent(end)])
  }

  /** All that is delivered for a sentence and its end. */
  function Delivery(cfg: Config, blocks: seq<Block>, end: EndMessage): seq<Event>
    requires Sentence(cfg, blocks) && EndOk(cfg, blocks, end)
  {
    Events(cfg, blocks) + [Ended(OutcomeOf(cfg, blocks, end))]
  }

  /** Conforming responses that end cleanly are delivered whole and complete the stream. */
  lemma ConformingIsDelivered(cfg: Config, blocks: seq<Block>, end: EndMessage, rs: seq<Response>)
    requires Conforms(cfg, blocks, end, rs)
    ensures Read(cfg, EMPTY, rs, Clean) == Transcript(Delivery(cfg, blocks, end), Completed)
  {
    hide Sentence, EndOk, InLimits, Wire, Events;
    var p, n := Parse(blocks, None), |rs| - 1;
    assert Seen(p) == blocks;
    assert ParseWire(p) == Wire(blocks);
    DoneOk(cfg, p);
    assert ParseEvents(cfg, p) == Events(cfg, blocks);
    SpellingSteps(cfg, p, rs[..n]);
    ReadAfterSteps(cfg, rs, Clean, n);
    assert rs[n..] == [rs[n]];
    assert rs[n].event == EndEvent(end);
    assert Advance(cfg, p, rs[n]) == Final(OutcomeOf(cfg, blocks, end));
  }

  /** A stream that completes had conforming responses, a clean ending, and that delivery. */
  lemma CompletionConforms(cfg: Config, rs: seq<Response>, ending: Ending) returns (blocks: seq<Block>, end: EndMessage)
    requires Read(cfg, EMPTY, rs, ending).verdict.Completed?
    ensures ending.Clean? && Conforms(cfg, blocks, end, rs)
    ensures Read(cfg, EMPTY, rs, ending).events == Delivery(cfg, blocks, end)
  {
    hide Sentence, InLimits, Wire, Events, Read;
    ReadIsAccepted(cfg, rs, ending);
    var n := Accepted(cfg, rs);
    StepsSpell(cfg, rs[..n]);
    var (p, es) := Steps(cfg, rs[..n]).value;
    FinalMeans(cfg, p, rs[n]);
    blocks, end := p.done, rs[n].event.end;
    DoneOk(cfg, p);
    assert rs == rs[..n] + [rs[n]];
  }

  lemma FinalMeans(cfg: Config, p: Parse, r: Response)
    requires ParseOk(cfg, p) && Advance(cfg, p, r).Final?
    ensures InLimits(cfg, r) && r.event.EndEvent? && p.open.None?
    ensures EndOk(cfg, p.done, r.event.end)
    ensures Advance(cfg, p, r).outcome == OutcomeOf(cfg, p.done, r.event.end)
  {
    hide Sentence, InLimits, EndOk, OutcomeOf, PrimaryAllowed, CountsOk, BatchOk, ColumnsOk;
  }

  /** The stream completes on exactly the conforming, cleanly ended response sequences. */
  lemma AcceptsExactlyTheGrammar(cfg: Config, rs: seq<Response>, ending: Ending)
    ensures Read(cfg, EMPTY, rs, ending).verdict.Completed? <==>
              ending.Clean? && exists blocks, end :: Conforms(cfg, blocks, end, rs)
  {
    hide Conforms, Read;
    if Read(cfg, EMPTY, rs, ending).verdict.Completed? {
      var blocks, end := CompletionConforms(cfg, rs, ending);
    } else if ending.Clean? {
      forall blocks, end | Conforms(cfg, blocks, end, rs) ensures false {
        ConformingIsDelivered(cfg, blocks, end, rs);
      }
    }
  }

  /** Whatever the server sends, a stream that fails has delivered a prefix of a sentence. */
  lemma FailureDeliversPrefix(cfg: Config, rs: seq<Response>, ending: Ending) returns (blocks: seq<Block>)
    requires Read(cfg, EMPTY, rs, ending).verdict.Failed?
    ensures Sentence(cfg, blocks)
    ensures Read(cfg, EMPTY, rs, ending).events <= Events(cfg, blocks)
  {
    hide Sentence, InLimits, Read, Advance;
    ReadIsAccepted(cfg, rs, ending);
    var n := Accepted(cfg, rs);
    StepsSpell(cfg, rs[..n]);
    var (p, es) := Steps(cfg, rs[..n]).value;
    blocks := Seen(p);
    EventsOfParsePrefix(cfg, p);
  }

  lemma EventsOfParsePrefix(cfg: Config, p: Parse)
    requires ParseOk(cfg, p)
    ensures ParseEvents(cfg, p) <= Events(cfg, Seen(p))
  {
    hide BlockOk, Sentence;
    DoneOk(cfg, p);
    if p.open.Some? {
      assert Seen(p)[..|Seen(p)| - 1] == p.done;
    } else {
      assert Seen(p) == p.done;
    }
  }

  /** One response sequence spells at most one sentence and end, legal or not. */
  lemma GrammarIsUnambiguous(
    cfg: Config, rs: seq<Response>, b1: seq<Block>, e1: EndMessage, b2: seq<Block>, e2: EndMessage)
    requires Sentence(cfg, b1) && Spells(cfg, rs, Wire(b1) + [EndEvent(e1)])
    requires Sentence(cfg, b2) && Spells(cfg, rs, Wire(b2) + [EndEvent(e2)])
    ensures b1 == b2 && e1 == e2
  {
    hide Sentence, InLimits, Wire, Steps;
    var n := |rs| - 1;
    assert EndEvent(e1) == rs[n].event == EndEvent(e2);
    var p1, p2 := Parse(b1, None), Parse(b2, None);
    assert Seen(p1) == b1 && Seen(p2) == b2;
    assert ParseWire(p1) == Wire(b1) && ParseWire(p2) == Wire(b2);
    SpellingSteps(cfg, p1, rs[..n]);
    SpellingSteps(cfg, p2, rs[..n]);
  }

  // ---- outcomes ----

  predicate HasQuery(es: seq<Event>) {
    exists e | e in es :: e.Started? && e.role == Query
  }

  lemma BlockHasQuery(cfg: Config, id: int, b: Block)
    requires BlockOk(cfg, b)
    ensures HasQuery(BlockEvents(cfg, id, b)) <==> IsQuery(b)
  {
    hide BlockOk, DecodeColumns, DecodeBatch;
    var es := BlockEvents(cfg, id, b);
    if b.SetBlock? {
      assert es[0].Started? && es[0].role == b.role && es[0] in es;
    }
    assert forall i :: 0 < i < |es| ==> !es[i].Started?;
  }

  lemma {:induction false} QueriedIsDelivered(cfg: Config, blocks: seq<Block>)
    requires forall b | b in blocks :: BlockOk(cfg, b)
    ensures Queried(blocks) <==> HasQuery(Events(cfg, blocks))
  {
    hide BlockOk, BlockEvents;
    if blocks != [] {
      var init, last := blocks[..|blocks| - 1], blocks[|blocks| - 1];
      QueriedIsDelivered(cfg, init);
      BlockHasQuery(cfg, |blocks|, last);
      assert blocks == init + [last];
      assert Queried(blocks) <==> Queried(init) || IsQuery(last);
      assert Events(cfg, blocks) == Events(cfg, init) + BlockEvents(cfg, |blocks|, last);
    }
  }

  lemma {:induction false} NoEndInside(cfg: Config, blocks: seq<Block>)
    requires forall b | b in blocks :: BlockOk(cfg, b)
    ensures forall e | e in Events(cfg, blocks) :: !e.Ended?
  {
    hide BlockOk, DecodeColumns, DecodeBatch;
    if blocks != [] {
      var init, last := blocks[..|blocks| - 1], blocks[|blocks| - 1];
      NoEndInside(cfg, init);
      assert blocks == init + [last];
      assert forall e | e in BlockEvents(cfg, |blocks|, last) :: !e.Ended?;
    }
  }

  /** An outcome is delivered only last, and only by a stream that completes. */
  lemma OutcomeMeansCompletion(cfg: Config, rs: seq<Response>, ending: Ending)
    ensures var t := Read(cfg, EMPTY, rs, ending);
            && (t.verdict.Completed? ==> t.events != [] && t.events[|t.events| - 1].Ended?)
            && forall i :: 0 <= i < |t.events| && t.events[i].Ended? ==>
                             t.verdict.Completed? && i == |t.events| - 1
  {
    hide Sentence, Read, Events;
    EmptyParse(cfg);
    var t := Read(cfg, EMPTY, rs, ending);
    if t.verdict.Completed? {
      var blocks, end := CompletionConforms(cfg, rs, ending);
      assert forall b | b in blocks :: BlockOk(cfg, b) by { SentenceBlocks(cfg, blocks); }
      NoEndInside(cfg, blocks);
    } else {
      var blocks := FailureDeliversPrefix(cfg, rs, ending);
      assert forall b | b in blocks :: BlockOk(cfg, b) by { SentenceBlocks(cfg, blocks); }
      NoEndInside(cfg, blocks);
      assert forall i :: 0 <= i < |t.events| ==> t.events[i] == Events(cfg, blocks)[i];
    }
  }

  lemma SentenceBlocks(cfg: Config, blocks: seq<Block>)
    requires Sentence(cfg, blocks)
    ensures forall b | b in blocks :: BlockOk(cfg, b)
  {
    hide BlockOk;
  }

  /**
   * A partial outcome is delivered only when the feature was accepted, the caller allowed
   * it, a query result set was delivered before it, and a cause warning comes with it;
   * a complete outcome carries no cause, and without the feature nothing is reported.
   */
  lemma PartialIsNeverSilent(cfg: Config, rs: seq<Response>, ending: Ending)
    requires Read(cfg, EMPTY, rs, ending).verdict.Completed?
    ensures var events := Read(cfg, EMPTY, rs, ending).events;
            var n := |events| - 1;
            && n >= 0 && events[n].Ended?
            && var o := events[n].outcome;
               && (o.completeness == Partial ==>
                     && PARTIAL_RESULTS in cfg.accepted && cfg.allowPartial
                     && (exists w | w in o.warnings :: w.role == PartialResultCause)
                     && (exists e | e in events[..n] :: e.Started? && e.role == Query))
               && (o.completeness == Complete ==>
                     && PARTIAL_RESULTS in cfg.accepted
                     && forall w | w in o.warnings :: w.role != PartialResultCause)
               && (PARTIAL_RESULTS in cfg.accepted <==> o.completeness in {Partial, Complete})
               && (PARTIAL_RESULTS !in cfg.accepted ==>
                     o.completeness == Unspecified && o.warnings == [] && o.omitted == 0)
  {
    hide Sentence, Read, Events, WarningOk, Queried;
    EmptyParse(cfg);
    var blocks, end := CompletionConforms(cfg, rs, ending);
    SentenceBlocks(cfg, blocks);
    QueriedIsDelivered(cfg, blocks);
    var events := Read(cfg, EMPTY, rs, ending).events;
    assert events[..|events| - 1] == Events(cfg, blocks);
  }
}
