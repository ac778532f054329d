/**
 * The grammar of an Execute stream: a list of result blocks, then one end. A block is an
 * update or a result set; a set of generated keys stands right after its update.
 */
module Grammar {
  import opened Wrappers
  import opened Errors
  import opened Protocol

  datatype Block =
    | UpdateBlock(counts: seq<WireCount>)
    | SetBlock(role: Role, columns: seq<WireColumn>, batches: seq<seq<WireRow>>)

  // ---- which block lists are sentences ----

  predicate BlockOk(cfg: Config, b: Block) {
    match b
    case UpdateBlock(counts) => CountsOk(counts)
    case SetBlock(role, columns, batches) =>
      && !role.OtherRole?
      && (role == GeneratedKeys ==> GENERATED_KEYS in cfg.accepted)
      && ColumnsOk(cfg, columns)
      && forall batch | batch in batches :: BatchOk(cfg, DecodeColumns(cfg, columns), batch)
  }

  predicate IsKeys(b: Block) { b.SetBlock? && b.role == GeneratedKeys }

  predicate IsUpdate(b: Block) { b.UpdateBlock? }

  predicate IsQuery(b: Block) { b.SetBlock? && b.role == Query }

  /** Results that are not generated keys. */
  function Primaries(blocks: seq<Block>): nat {
    if blocks == [] then 0
    else Primaries(blocks[..|blocks| - 1]) + if IsKeys(blocks[|blocks| - 1]) then 0 else 1
  }

  /** A sentence: sound blocks, keys only after updates, one primary unless more are accepted. */
  predicate Sentence(cfg: Config, blocks: seq<Block>) {
    && (forall b | b in blocks :: BlockOk(cfg, b))
    && (forall i :: 0 <= i < |blocks| && IsKeys(blocks[i]) ==> i > 0 && blocks[i - 1].UpdateBlock?)
    && (Primaries(blocks) > 1 ==> MULTIPLE_RESULTS in cfg.accepted)
  }

  predicate Queried(blocks: seq<Block>) {
    exists b | b in blocks :: IsQuery(b)
  }

  predicate EndOk(cfg: Config, blocks: seq<Block>, end: EndMessage) {
    && end.resultCount == |blocks|
    && end.transaction.Some?
    && DecodeStatus(end.transaction.value).Success?
    && DecodeOutcome(cfg, end, Queried(blocks)).Success?
  }

  function OutcomeOf(cfg: Config, blocks: seq<Block>, end: EndMessage): Outcome
    requires EndOk(cfg, blocks, end)
  {
    var (completeness, warnings, omitted) := DecodeOutcome(cfg, end, Queried(blocks)).value;
    Outcome(end.resultCount, end.transaction.value, completeness, warnings, omitted)
  }

  // ---- how a block list is written on the wire, and what is delivered for it ----

  function ParentOf(role: Role, id: int): Option<int> {
    if role == GeneratedKeys then Some(id - 1) else None
  }

  function RowCount(batches: seq<seq<WireRow>>): nat {
    if batches == [] then 0 else RowCount(batches[..|batches| - 1]) + |batches[|batches| - 1]|
  }

  /** The wire events of a result set up to its batches, without its end. */
  function OpenWire(id: int, b: Block): seq<WireEvent>
    requires b.SetBlock?
  {
    [StartEvent(id, b.role, ParentOf(b.role, id), b.columns)]
    + seq(|b.batches|, i requires 0 <= i < |b.batches| => RowsEvent(id, b.batches[i]))
  }

  function BlockWire(id: int, b: Block): seq<WireEvent> {
    match b
    case UpdateBlock(counts) => [UpdateEvent(id, counts)]
    case SetBlock(_, _, batches) => OpenWire(id, b) + [SetEndEvent(id, RowCount(batches))]
  }

  /** Blocks are numbered 1, 2, 3, ... */
  function Wire(blocks: seq<Block>): seq<WireEvent> {
    if blocks == [] then []
    else Wire(blocks[..|blocks| - 1]) + BlockWire(|blocks|, blocks[|blocks| - 1])
  }

  function OpenEvents(cfg: Config, id: int, b: Block): seq<Event>
    requires b.SetBlock? && BlockOk(cfg, b)
  {
    var columns := DecodeColumns(cfg, b.columns);
    [Started(id, columns, b.role, ParentOf(b.role, id))]
    + seq(|b.batches|, i requires 0 <= i < |b.batches| => Rows(id, DecodeBatch(cfg, columns, b.batches[i])))
  }

  function BlockEvents(cfg: Config, id: int, b: Block): seq<Event>
    requires BlockOk(cfg, b)
  {
    match b
    case UpdateBlock(counts) => [Updated(id, DecodeCounts(counts))]
    case SetBlock(_, _, batches) => OpenEvents(cfg, id, b) + [SetEnded(id, RowCount(batches))]
  }

  function Events(cfg: Config, blocks: seq<Block>): seq<Event>
    requires forall b | b in blocks :: BlockOk(cfg, b)
  {
    if blocks == [] then []
    else
      var init := blocks[..|blocks| - 1];
      Events(cfg, init) + BlockEvents(cfg, |blocks|, blocks[|blocks| - 1])
  }

  // ---- parsing one event at a time ----

  /** A partial parse: the finished blocks and the result set still open, if any. */
  datatype Parse = Parse(done: seq<Block>, open: Option<Block>)

  const EMPTY := Parse([], None)

  /** The blocks seen so far, the open one with the batches it has. */
  function Seen(p: Parse): seq<Block> {
    p.done + if p.open.Some? then [p.open.value] else []
  }

  predicate ParseOk(cfg: Config, p: Parse) {
    Sentence(cfg, Seen(p)) && (p.open.Some? ==> p.open.value.SetBlock? && BlockOk(cfg, p.open.value))
  }

  predicate PrimaryAllowed(cfg: Config, done: seq<Block>) {
    Primaries(done) > 0 ==> MULTIPLE_RESULTS in cfg.accepted
  }

  datatype Move = Refused | Delivered(parse: Parse, event: Event) | Final(outcome: Outcome)

  /** What the grammar says of the next response, from a partial parse. */
  function Advance(cfg: Config, p: Parse, r: Response): Move
    requires ParseOk(cfg, p)
  {
    var id := |p.done| + 1;
    if !InLimits(cfg, r) then Refused
    else
      match r.event
      case NoEvent => Refused
      case StartEvent(resultId, role, parent, columns) =>
        if p.open.None? && resultId == id && ColumnsOk(cfg, columns) && parent == ParentOf(role, id)
           && ((role == Query && PrimaryAllowed(cfg, p.done))
               || (role == GeneratedKeys && GENERATED_KEYS in cfg.accepted
                   && p.done != [] && p.done[|p.done| - 1].UpdateBlock?))
        then Delivered(Parse(p.done, Some(SetBlock(role, columns, []))),
                       Started(id, DecodeColumns(cfg, columns), role, parent))
        else Refused
      case RowsEvent(resultId, rows) =>
        if p.open.Some? && resultId == id && BatchOk(cfg, DecodeColumns(cfg, p.open.value.columns), rows)
        then Delivered(Parse(p.done, Some(p.open.value.(batches := p.open.value.batches + [rows]))),
                       Rows(id, DecodeBatch(cfg, DecodeColumns(cfg, p.open.value.columns), rows)))
        else Refused
      case UpdateEvent(resultId, counts) =>
        if p.open.None? && resultId == id && PrimaryAllowed(cfg, p.done) && CountsOk(counts)
        then Delivered(Parse(p.done + [UpdateBlock(counts)], None), Updated(id, DecodeCounts(counts)))
        else Refused
      case SetEndEvent(resultId, rowCount) =>
        if p.open.Some? && resultId == id && rowCount == RowCount(p.open.value.batches)
        then Delivered(Parse(p.done + [p.open.value], None), SetEnded(id, rowCount))
        else Refused
      case EndEvent(end) =>
        if p.open.None? && EndOk(cfg, p.done, end) then Final(OutcomeOf(cfg, p.done, end)) else Refused
  }

  /** An accepted response keeps the parse a parse. */
  lemma AdvanceKeepsParse(cfg: Config, p: Parse, r: Response)
    requires ParseOk(cfg, p) && Advance(cfg, p, r).Delivered?
    ensures ParseOk(cfg, Advance(cfg, p, r).parse)
  {
    hide Sentence, PrimaryAllowed, InLimits, BatchOk, ColumnsOk, CountsOk, EndOk, OutcomeOf, RowCount;
    var p' := Advance(cfg, p, r).parse;
    var seen, seen' := Seen(p), Seen(p');
    if r.event.StartEvent? || r.event.UpdateEvent? {
      var b := if p'.open.Some? then p'.open.value else p'.done[|p.done|];
      assert seen == p.done && seen' == p.done + [b];
      SentenceSnoc(cfg, p.done, b);
    } else if r.event.RowsEvent? {
      var b, b' := p.open.value, p'.open.value;
      assert seen == p.done + [b] && seen' == p.done + [b'];
      SentenceInit(cfg, p.done, b);
      assert b in seen;
      BatchSnocOk(cfg, b, r.event.rows);
      SentenceSnoc(cfg, p.done, b');
    } else {
      assert seen' == seen;
    }
  }

  lemma BatchSnocOk(cfg: Config, b: Block, rows: seq<WireRow>)
    requires b.SetBlock? && BlockOk(cfg, b) && BatchOk(cfg, DecodeColumns(cfg, b.columns), rows)
    ensures BlockOk(cfg, b.(batches := b.batches + [rows]))
  {
  }

  /** Appending a sound block in a legal place gives a sentence. */
  lemma SentenceSnoc(cfg: Config, blocks: seq<Block>, b: Block)
    requires Sentence(cfg, blocks) && BlockOk(cfg, b)
    requires IsKeys(b) ==> blocks != [] && blocks[|blocks| - 1].UpdateBlock?
    requires !IsKeys(b) ==> PrimaryAllowed(cfg, blocks)
    ensures Sentence(cfg, blocks + [b])
  {
    var all := blocks + [b];
    assert all[..|all| - 1] == blocks;
  }

  /** What a sentence says of its last block and of the blocks before it. */
  lemma SentenceInit(cfg: Config, blocks: seq<Block>, b: Block)
    requires Sentence(cfg, blocks + [b])
    ensures Sentence(cfg, blocks) && BlockOk(cfg, b)
    ensures IsKeys(b) ==> blocks != [] && blocks[|blocks| - 1].UpdateBlock?
    ensures !IsKeys(b) ==> PrimaryAllowed(cfg, blocks)
  {
    var all := blocks + [b];
    assert all[..|all| - 1] == blocks;
    assert all[|blocks|] == b && b in all;
    forall i | 0 <= i < |blocks| && IsKeys(blocks[i]) ensures i > 0 && blocks[i - 1].UpdateBlock? {
      assert all[i] == blocks[i] && all[i - 1] == blocks[i - 1];
    }
    forall c | c in blocks ensures BlockOk(cfg, c) {
      assert c in all;
    }
    if IsKeys(b) {
      assert all[|blocks| - 1].UpdateBlock?;
    }
  }
}
