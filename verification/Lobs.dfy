/** Large objects in chunks: the offset-checked reader and the splitting writer. */
module Lobs {
  import opened Wrappers
  import opened Errors
  import opened Codec
  import opened Protocol
  import opened Transcripts

  type Data = seq<Byte>

  function Concat(pieces: seq<Data>): Data {
    if pieces == [] then [] else Concat(pieces[..|pieces| - 1]) + pieces[|pieces| - 1]
  }

  lemma ConcatSnoc(pieces: seq<Data>, piece: Data)
    ensures Concat(pieces + [piece]) == Concat(pieces) + piece
  {
    assert (pieces + [piece])[..|pieces|] == pieces;
  }

  // ---- reading ----

  datatype LobResponse = LobResponse(offset: int, data: Data, endOfRead: bool)

  datatype LobTranscript = LobTranscript(pieces: seq<Data>, verdict: Verdict)

  predicate Exceeds(length: Option<int>, read: int) { length.Some? && read > length.value }

  /** Reading on at an offset, with so many bytes already read of a requested length. */
  function ReadLob(
    offset: int, read: int, length: Option<int>, maxChunk: int, rs: seq<LobResponse>, ending: Ending):
    (t: LobTranscript)
    ensures t.verdict.Completed? ==> t.pieces != []
    decreases |rs|
  {
    if rs == [] then LobTranscript([], Failed(EndingError(ending)))
    else
      var r, total := rs[0], read + |rs[0].data|;
      if r.offset != offset || |r.data| > maxChunk || Exceeds(length, total) then
        LobTranscript([], Failed(ProtocolError))
      else if !r.endOfRead then
        var rest := ReadLob(offset + |r.data|, total, length, maxChunk, rs[1..], ending);
        LobTranscript([r.data] + rest.pieces, rest.verdict)
      else if length.Some? && total != length.value then LobTranscript([], Failed(ProtocolError))
      else if |rs| > 1 then LobTranscript([], Failed(ProtocolError))
      else if ending.Clean? then LobTranscript([r.data], Completed)
      else LobTranscript([], Failed(EndingError(ending)))
  }

  datatype LobStep = Piece(data: Data) | StopReading | RaiseError(error: Error)

  class LobReadStream {
    const length: Option<int>
    const maxChunk: int
    const ending: Ending
    var unread: seq<LobResponse>
    var cancelled: bool
    var nextOffset: int
    var read: int
    var complete: bool
    var closed: bool

    predicate Live()
      reads this
    {
      !complete && !closed
    }

    /** A reader is never cancelled once it is complete. */
    ghost predicate Valid()
      reads this
    {
      cancelled <==> closed && !complete
    }

    ghost function Ahead(): LobTranscript
      reads this
    {
      ReadLob(nextOffset, read, length, maxChunk, unread, ending)
    }

    constructor (responses: seq<LobResponse>, ending: Ending, offset: int, length: Option<int>, maxChunk: int)
      ensures Valid() && Live() && !cancelled
      ensures Ahead() == ReadLob(offset, 0, length, maxChunk, responses, ending)
    {
      this.length := length;
      this.maxChunk := maxChunk;
      this.ending := ending;
      unread := responses;
      cancelled := false;
      nextOffset := offset;
      read := 0;
      complete := false;
      closed := false;
    }

    method Close()
      requires Valid()
      modifies this
      ensures Valid() && closed && complete == old(complete)
      ensures cancelled <==> !complete
    {
      if closed {
        return;
      }
      closed := true;
      if !complete {
        cancelled := true;
      }
    }

    /** Hands out the first piece still ahead, or raises what stands where it would be. */
    method Next() returns (r: LobStep)
      requires Valid()
      modifies this
      ensures Valid()
      ensures !old(Live()) ==> r == StopReading && unchanged(this)
      ensures old(Live()) && old(Ahead()).pieces == [] ==>
                && r.RaiseError? && old(Ahead()).verdict == Failed(r.error) && !complete
                && (r.error == ProtocolError ==> closed && cancelled)
                && (r.error != ProtocolError ==> Live() && Ahead() == old(Ahead()))
      ensures old(Live()) && old(Ahead()).pieces != [] ==>
                && r == Piece(old(Ahead()).pieces[0]) && !closed
                && if |old(Ahead()).pieces| == 1 && old(Ahead()).verdict.Completed? then complete
                   else Live() && Ahead() == LobTranscript(old(Ahead()).pieces[1..], old(Ahead()).verdict)
    {
      if complete || closed {
        return StopReading;
      }
      var piece := Receive();
      match piece
      case Success(data) =>
        r := Piece(data);
      case Failure(error) =>
        if error == ProtocolError {
          Close();
        }
        r := RaiseError(error);
    }

    /** The body of `__next__` inside its outer `try`. */
    method Receive() returns (r: Result<Data, Error>)
      requires Live()
      modifies `unread, `nextOffset, `read, `complete
      ensures old(Ahead()).pieces == [] ==>
                && r.Failure? && old(Ahead()).verdict == Failed(r.error) && !complete
                && (r.error != ProtocolError ==> Ahead() == old(Ahead()))
      ensures old(Ahead()).pieces != [] ==>
                && r == Success(old(Ahead()).pieces[0])
                && if |old(Ahead()).pieces| == 1 && old(Ahead()).verdict.Completed? then complete
                   else !complete && Ahead() == LobTranscript(old(Ahead()).pieces[1..], old(Ahead()).verdict)
    {
      if unread == [] {
        return Failure(EndingError(ending));
      }
      var response := unread[0];
      unread := unread[1..];
      if response.offset != nextOffset {
        return Failure(ProtocolError);
      }
      if |response.data| > maxChunk {
        return Failure(ProtocolError);
      }
      nextOffset := nextOffset + |response.data|;
      read := read + |response.data|;
      if length.Some? && read > length.value {
        return Failure(ProtocolError);
      }
      if response.endOfRead {
        if length.Some? && read != length.value {
          return Failure(ProtocolError);
        }
        if unread != [] {
          unread := unread[1..];
          return Failure(ProtocolError);
        }
        if ending.Broken? {
          return Failure(EndingError(ending));
        }
        complete := true;
      }
      r := Success(response.data);
    }
  }

  // ---- what a reader can hand out ----

  function DataOf(rs: seq<LobResponse>): (r: seq<Data>)
    ensures |r| == |rs|
  {
    seq(|rs|, i requires 0 <= i < |rs| => rs[i].data)
  }

  /** Response `i` starts where the ones before it end. */
  ghost predicate Contiguous(offset: int, rs: seq<LobResponse>) {
    forall i :: 0 <= i < |rs| ==> rs[i].offset == offset + |Concat(DataOf(rs[..i]))|
  }

  lemma ConcatCons(first: Data, pieces: seq<Data>)
    ensures Concat([first] + pieces) == first + Concat(pieces)
  {
    if pieces == [] {
      assert [first] + pieces == [] + [first];
      ConcatSnoc([], first);
    } else {
      var n := |pieces| - 1;
      ConcatCons(first, pieces[..n]);
      assert [first] + pieces == ([first] + pieces[..n]) + [pieces[n]];
      ConcatSnoc([first] + pieces[..n], pieces[n]);
      assert first + (Concat(pieces[..n]) + pieces[n]) == (first + Concat(pieces[..n])) + pieces[n];
    }
  }

  lemma ContiguousTail(offset: int, rs: seq<LobResponse>)
    requires rs != []
    ensures Contiguous(offset, rs) <==> rs[0].offset == offset && Contiguous(offset + |rs[0].data|, rs[1..])
  {
    var tail := rs[1..];
    forall i | 1 <= i < |rs|
      ensures |Concat(DataOf(rs[..i]))| == |rs[0].data| + |Concat(DataOf(tail[..i - 1]))|
    {
      assert DataOf(rs[..i]) == [rs[0].data] + DataOf(tail[..i - 1]);
      ConcatCons(rs[0].data, DataOf(tail[..i - 1]));
    }
    assert rs[..0] == [] && Concat(DataOf([])) == [];
    if Contiguous(offset, rs) {
      assert forall i :: 0 <= i < |tail| ==> tail[i] == rs[i + 1];
    }
    if rs[0].offset == offset && Contiguous(offset + |rs[0].data|, tail) {
      assert forall i :: 1 <= i < |rs| ==> rs[i] == tail[i - 1];
    }
  }

  /** The responses that make a complete read of a range. */
  ghost predicate WholeRead(offset: int, length: Option<int>, maxChunk: int, rs: seq<LobResponse>) {
    && rs != []
    && Contiguous(offset, rs)
    && (forall i :: 0 <= i < |rs| ==> |rs[i].data| <= maxChunk)
    && (forall i :: 0 <= i < |rs| ==> (rs[i].endOfRead <==> i == |rs| - 1))
    && (length.Some? ==> |Concat(DataOf(rs))| == length.value)
  }

  /**
   * A read completes exactly on responses that are contiguous from the offset, within the
   * chunk limit, ended by the last one and cleanly, and of the requested length if there
   * is one; then it hands out all their data.
   */
  lemma CompletesExactlyOnWholeReads(
    offset: int, length: Option<int>, maxChunk: int, rs: seq<LobResponse>, ending: Ending)
    ensures var t := ReadLob(offset, 0, length, maxChunk, rs, ending);
            && (t.verdict.Completed? <==> ending.Clean? && WholeRead(offset, length, maxChunk, rs))
            && (t.verdict.Completed? ==> t.pieces == DataOf(rs))
  {
    CompletesFrom(offset, 0, length, maxChunk, rs, ending);
  }

  ghost predicate WholeRest(offset: int, read: int, length: Option<int>, maxChunk: int, rs: seq<LobResponse>) {
    WholeRead(offset, if length.Some? then Some(length.value - read) else None, maxChunk, rs)
  }

  lemma {:induction false} CompletesFrom(
    offset: int, read: int, length: Option<int>, maxChunk: int, rs: seq<LobResponse>, ending: Ending)
    ensures var t := ReadLob(offset, read, length, maxChunk, rs, ending);
            && (t.verdict.Completed? <==> ending.Clean? && WholeRest(offset, read, length, maxChunk, rs))
            && (t.verdict.Completed? ==> t.pieces == DataOf(rs))
    decreases |rs|
  {
    hide WholeRest;
    if rs == [] {
      NoRest(offset, read, length, maxChunk, rs);
    } else {
      var r, tail := rs[0], rs[1..];
      assert DataOf(rs) == [r.data] + DataOf(tail);
      CompletesFrom(offset + |r.data|, read + |r.data|, length, maxChunk, tail, ending);
      WholeRestStep(offset, read, length, maxChunk, rs);
    }
  }

  lemma NoRest(offset: int, read: int, length: Option<int>, maxChunk: int, rs: seq<LobResponse>)
    requires rs == []
    ensures !WholeRest(offset, read, length, maxChunk, rs)
  {
  }

  /** A whole rest is one good response and a whole rest, or a last response that fits. */
  lemma WholeRestStep(offset: int, read: int, length: Option<int>, maxChunk: int, rs: seq<LobResponse>)
    requires rs != []
    ensures var r, tail := rs[0], rs[1..];
            WholeRest(offset, read, length, maxChunk, rs) <==>
              && r.offset == offset && |r.data| <= maxChunk && !Exceeds(length, read + |r.data|)
              && if r.endOfRead then |rs| == 1 && (length.Some? ==> read + |r.data| == length.value)
                 else WholeRest(offset + |r.data|, read + |r.data|, length, maxChunk, tail)
  {
    hide Contiguous, Concat;
    var r, tail := rs[0], rs[1..];
    ContiguousTail(offset, rs);
    assert DataOf(rs) == [r.data] + DataOf(tail);
    ConcatCons(r.data, DataOf(tail));
    assert forall i :: 0 <= i < |tail| ==> tail[i] == rs[i + 1];
    assert forall i :: 1 <= i < |rs| ==> rs[i] == tail[i - 1];
    if |rs| == 1 {
      assert Concat(DataOf(tail)) == [] by { EmptyConcat(DataOf(tail)); }
      assert Contiguous(offset + |r.data|, tail) by { EmptyContiguous(offset + |r.data|, tail); }
    }
  }

  lemma EmptyConcat(pieces: seq<Data>)
    requires pieces == []
    ensures Concat(pieces) == []
  {
  }

  lemma EmptyContiguous(offset: int, rs: seq<LobResponse>)
    requires rs == []
    ensures Contiguous(offset, rs)
  {
  }

  /** Whatever comes, the pieces handed out are contiguous and never exceed the length. */
  lemma {:induction false} ReadingIsSafe(
    offset: int, read: int, length: Option<int>, maxChunk: int, rs: seq<LobResponse>, ending: Ending)
    requires !Exceeds(length, read)
    ensures var t := ReadLob(offset, read, length, maxChunk, rs, ending);
            && |t.pieces| <= |rs|
            && t.pieces == DataOf(rs[..|t.pieces|])
            && Contiguous(offset, rs[..|t.pieces|])
            && !Exceeds(length, read + |Concat(t.pieces)|)
    decreases |rs|
  {
    hide Contiguous, Concat;
    var t := ReadLob(offset, read, length, maxChunk, rs, ending);
    if t.pieces == [] {
      EmptyContiguous(offset, rs[..0]);
      EmptyConcat(t.pieces);
    } else if rs[0].endOfRead {
      SafeStep(offset, rs, []);
    } else {
      var next, total := offset + |rs[0].data|, read + |rs[0].data|;
      ReadingIsSafe(next, total, length, maxChunk, rs[1..], ending);
      SafeStep(offset, rs, ReadLob(next, total, length, maxChunk, rs[1..], ending).pieces);
    }
  }

  /** The bytes in the first i responses. */
  function BytesBefore(rs: seq<LobResponse>, i: nat): nat
    requires i <= |rs|
  {
    if i == 0 then 0 else BytesBefore(rs, i - 1) + |rs[i - 1].data|
  }

  lemma {:induction false} BytesBehindFirst(rs: seq<LobResponse>, i: nat)
    requires i < |rs|
    ensures BytesBefore(rs, i + 1) == |rs[0].data| + BytesBefore(rs[1..], i)
  {
    if i > 0 {
      BytesBehindFirst(rs, i - 1);
      assert rs[1..][i - 1] == rs[i];
    }
  }

  /** Response i goes on where the ones before it stopped, and ends the read only if that is whole. */
  predicate LobFits(offset: int, read: int, length: Option<int>, maxChunk: int, rs: seq<LobResponse>, i: nat)
    requires i < |rs|
  {
    var total := read + BytesBefore(rs, i) + |rs[i].data|;
    && rs[i].offset == offset + BytesBefore(rs, i)
    && |rs[i].data| <= maxChunk
    && (length.Some? ==> if rs[i].endOfRead then total == length.value else total <= length.value)
  }

  lemma FitsBehindFirst(
    offset: int, read: int, length: Option<int>, maxChunk: int, rs: seq<LobResponse>, i: nat)
    requires i + 1 < |rs|
    ensures var n := |rs[0].data|;
            LobFits(offset, read, length, maxChunk, rs, i + 1) <==>
            LobFits(offset + n, read + n, length, maxChunk, rs[1..], i)
  {
    BytesBehindFirst(rs, i);
    assert rs[1..][i] == rs[i + 1];
  }

  /** What a reader gets of responses that begin so, and what it gets after it. */
  ghost predicate ReadsTo(
    offset: int, read: int, length: Option<int>, maxChunk: int, rs: seq<LobResponse>, ending: Ending, t: LobTranscript)
  {
    var n := |t.pieces|;
    && n <= |rs|
    && (forall i :: 0 <= i < n ==> LobFits(offset, read, length, maxChunk, rs, i) && t.pieces[i] == rs[i].data)
    && (forall i :: 0 <= i < n && rs[i].endOfRead ==> i + 1 == |rs| && ending.Clean?)
    && (n < |rs| && LobFits(offset, read, length, maxChunk, rs, n) ==>
          rs[n].endOfRead && !(n + 1 == |rs| && ending.Clean?))
    && t.verdict ==
       (if n > 0 && rs[n - 1].endOfRead then Completed
        else if n < |rs| && (n + 1 < |rs| || !LobFits(offset, read, length, maxChunk, rs, n)) then Failed(ProtocolError)
        else match ending
             case Clean => Failed(ProtocolError)
             case Broken(details) => Failed(RpcError(details)))
  }

  /**
   * A reader hands out the data of each response up to the first that does not go on where
   * the ones before stopped; the end of the read only if nothing follows it and the call
   * ends cleanly. With it the read is complete, and without it it failed: with a protocol
   * error, or with the call's own if no response was to blame.
   */
  lemma {:induction false} ReadPieceByPiece(
    offset: int, read: int, length: Option<int>, maxChunk: int, rs: seq<LobResponse>, ending: Ending)
    ensures ReadsTo(offset, read, length, maxChunk, rs, ending,
                    ReadLob(offset, read, length, maxChunk, rs, ending))
    decreases |rs|
  {
    hide ReadsTo, LobFits;
    if rs != [] && LobFits(offset, read, length, maxChunk, rs, 0) && !rs[0].endOfRead {
      var n := |rs[0].data|;
      FitsAtOnce(offset, read, length, maxChunk, rs);
      ReadPieceByPiece(offset + n, read + n, length, maxChunk, rs[1..], ending);
      ReadsOn(offset, read, length, maxChunk, rs, ending,
              ReadLob(offset + n, read + n, length, maxChunk, rs[1..], ending));
    } else {
      ReadsNoFurther(offset, read, length, maxChunk, rs, ending);
    }
  }

  lemma FitsAtOnce(offset: int, read: int, length: Option<int>, maxChunk: int, rs: seq<LobResponse>)
    requires rs != []
    ensures LobFits(offset, read, length, maxChunk, rs, 0) <==>
              && rs[0].offset == offset && |rs[0].data| <= maxChunk && !Exceeds(length, read + |rs[0].data|)
              && (rs[0].endOfRead && length.Some? ==> read + |rs[0].data| == length.value)
  {
    assert BytesBefore(rs, 0) == 0;
  }

  lemma ReadsNoFurther(
    offset: int, read: int, length: Option<int>, maxChunk: int, rs: seq<LobResponse>, ending: Ending)
    requires rs == [] || !LobFits(offset, read, length, maxChunk, rs, 0) || rs[0].endOfRead
    ensures ReadsTo(offset, read, length, maxChunk, rs, ending,
                    ReadLob(offset, read, length, maxChunk, rs, ending))
  {
    hide LobFits;
    if rs != [] {
      FitsAtOnce(offset, read, length, maxChunk, rs);
    }
  }

  lemma ReadsOn(
    offset: int, read: int, length: Option<int>, maxChunk: int, rs: seq<LobResponse>, ending: Ending,
    rest: LobTranscript)
    requires rs != [] && LobFits(offset, read, length, maxChunk, rs, 0) && !rs[0].endOfRead
    requires ReadsTo(offset + |rs[0].data|, read + |rs[0].data|, length, maxChunk, rs[1..], ending, rest)
    ensures ReadsTo(offset, read, length, maxChunk, rs, ending, LobTranscript([rs[0].data] + rest.pieces, rest.verdict))
  {
    hide LobFits;
    var tail, n := rs[1..], |rs[0].data|;
    forall i | 0 <= i < |tail|
      ensures tail[i] == rs[i + 1]
      ensures LobFits(offset, read, length, maxChunk, rs, i + 1) <==>
              LobFits(offset + n, read + n, length, maxChunk, tail, i)
    {
      FitsBehindFirst(offset, read, length, maxChunk, rs, i);
    }
    var pieces := [rs[0].data] + rest.pieces;
    forall i | 0 <= i < |pieces|
      ensures LobFits(offset, read, length, maxChunk, rs, i) && pieces[i] == rs[i].data
      ensures rs[i].endOfRead ==> i + 1 == |rs| && ending.Clean?
    {
      if i > 0 {
        assert tail[i - 1] == rs[i];
        assert LobFits(offset + n, read + n, length, maxChunk, tail, i - 1);
      }
    }
  }

  lemma SafeStep(offset: int, rs: seq<LobResponse>, rest: seq<Data>)
    requires rs != [] && rs[0].offset == offset && |rest| < |rs| && rest == DataOf(rs[1..][..|rest|])
    requires rest == [] || Contiguous(offset + |rs[0].data|, rs[1..][..|rest|])
    ensures var pieces := [rs[0].data] + rest;
            && pieces == DataOf(rs[..|pieces|])
            && Contiguous(offset, rs[..|pieces|])
            && |Concat(pieces)| == |rs[0].data| + |Concat(rest)|
            && (rest == [] ==> |Concat(rest)| == 0)
  {
    hide Contiguous, Concat;
    var read := rs[..1 + |rest|];
    assert read[1..] == rs[1..][..|rest|];
    if rest == [] {
      EmptyContiguous(offset + |rs[0].data|, read[1..]);
      EmptyConcat(rest);
    }
    ContiguousTail(offset, read);
    ConcatCons(rs[0].data, rest);
  }

  // ---- writing ----

  /** An element of the payload: bytes, or some other object. */
  datatype Source = Chunked(data: Data) | NotBytes

  datatype LobChunk = LobChunk(offset: nat, data: Data)

  /** The strict incremental UTF-8 decoder, seen through what it accepts so far and at the end. */
  datatype Utf8 = Utf8(prefix: Data -> bool, whole: Data -> bool)

  function PayloadOf(payload: seq<Source>): Data {
    if payload == [] then []
    else
      var last := payload[|payload| - 1];
      PayloadOf(payload[..|payload| - 1]) + if last.Chunked? then last.data else []
  }

  predicate AllBytes(payload: seq<Source>) {
    forall s | s in payload :: s.Chunked?
  }

  /** For a CLOB, the text decodes piece by piece, and is complete at the end. */
  ghost predicate Decodes(utf8: Option<Utf8>, payload: seq<Source>) {
    utf8.Some? ==>
      && (forall i :: 0 < i <= |payload| ==> utf8.value.prefix(PayloadOf(payload[..i])))
      && utf8.value.whole(PayloadOf(payload))
  }

  function ChunkData(chunks: seq<LobChunk>): (r: seq<Data>)
    ensures |r| == |chunks|
  {
    seq(|chunks|, i requires 0 <= i < |chunks| => chunks[i].data)
  }

  function Written(chunks: seq<LobChunk>): Data { Concat(ChunkData(chunks)) }

  /** Chunks a server may be sent: numbered from zero without gaps, none empty or too long. */
  ghost predicate WellChunked(chunks: seq<LobChunk>, maxChunk: nat) {
    forall i :: 0 <= i < |chunks| ==>
      && 0 < |chunks[i].data| <= maxChunk
      && chunks[i].offset == |Written(chunks[..i])|
  }

  lemma ChunkSnoc(chunks: seq<LobChunk>, chunk: LobChunk, maxChunk: nat)
    requires WellChunked(chunks, maxChunk) && 0 < |chunk.data| <= maxChunk && chunk.offset == |Written(chunks)|
    ensures WellChunked(chunks + [chunk], maxChunk)
    ensures Written(chunks + [chunk]) == Written(chunks) + chunk.data
  {
    hide Concat;
    assert ChunkData(chunks + [chunk]) == ChunkData(chunks) + [chunk.data];
    ConcatSnoc(ChunkData(chunks), chunk.data);
    forall i | 0 <= i <= |chunks| ensures (chunks + [chunk])[..i] == chunks[..i] {}
    assert chunks[..|chunks|] == chunks;
  }

  /** The chunk lies inside element k of the payload, and is full or ends where the element does. */
  predicate CutFrom(payload: seq<Source>, k: nat, chunk: LobChunk, maxChunk: nat) {
    && k < |payload|
    && var start, end := |PayloadOf(payload[..k])|, |PayloadOf(payload[..k + 1])|;
       && start <= chunk.offset && chunk.offset + |chunk.data| <= end
       && (|chunk.data| == maxChunk || chunk.offset + |chunk.data| == end)
  }

  /** The first n elements are bytes that are text so far, if they have to be. */
  ghost predicate GoodSoFar(payload: seq<Source>, utf8: Option<Utf8>, n: nat)
    requires n <= |payload|
  {
    && AllBytes(payload[..n])
    && (utf8.Some? ==> forall i :: 0 < i <= n ==> utf8.value.prefix(PayloadOf(payload[..i])))
  }

  /** Element k passes the size limit, and is good, as are all those before it. */
  ghost predicate OverflowsAt(payload: seq<Source>, utf8: Option<Utf8>, maxSize: nat, k: nat)
    requires k < |payload|
  {
    && |PayloadOf(payload[..k])| <= maxSize < |PayloadOf(payload[..k + 1])|
    && GoodSoFar(payload, utf8, k + 1)
  }

  ghost predicate Overflows(payload: seq<Source>, utf8: Option<Utf8>, maxSize: nat) {
    exists k :: 0 <= k < |payload| && OverflowsAt(payload, utf8, maxSize, k)
  }

  /**
   * The chunk requests of `_lob_write_requests`. Whatever happens, the chunks sent are
   * well formed, within the size limit, and spell a prefix of the payload; none is shorter
   * than its element makes it. The writer succeeds exactly on payloads of bytes that fit,
   * decode, and have the declared size; what fails is the size limit, or else the payload.
   */
  method WriteRequests(payload: seq<Source>, utf8: Option<Utf8>, size: Option<int>, maxChunk: nat, maxSize: nat)
    returns (chunks: seq<LobChunk>, r: Result<(), Error>)
    requires maxChunk > 0
    ensures WellChunked(chunks, maxChunk) && |Written(chunks)| <= maxSize
    ensures Written(chunks) <= PayloadOf(payload)
    ensures forall c | c in chunks :: exists k :: CutFrom(payload, k, c, maxChunk)
    ensures r.Success? ==> Written(chunks) == PayloadOf(payload)
    ensures r.Success? <==>
              && AllBytes(payload) && Decodes(utf8, payload) && |PayloadOf(payload)| <= maxSize
              && (size.Some? ==> |PayloadOf(payload)| == size.value)
    ensures r.Failure? ==> r.error == if Overflows(payload, utf8, maxSize) then CapabilityError else CodecError
    ensures r == Failure(CodecError) ==>
              exists k :: 0 <= k <= |payload| && Written(chunks) == PayloadOf(payload[..k])
                          && (k < |payload| ==> GoodSoFar(payload, utf8, k) && !GoodSoFar(payload, utf8, k + 1))
  {
    hide Concat, Overflows, OverflowsAt, CutFrom, GoodSoFar, Decodes, AllBytes, WellChunked;
    chunks := [];
    var offset := 0;
    EmptyConcat(ChunkData(chunks));
    NoChunks(payload, utf8, maxChunk);
    var decoded: Data := [];
    for k := 0 to |payload|
      invariant GoodSoFar(payload, utf8, k) && decoded == PayloadOf(payload[..k]) == Written(chunks)
      invariant WellChunked(chunks, maxChunk) && offset == |Written(chunks)| <= maxSize
      invariant forall c | c in chunks :: exists j :: CutFrom(payload, j, c, maxChunk)
    {
      PayloadStep(payload, k);
      GoodStep(payload, utf8, k);
      var source := payload[k];
      if source.NotBytes? {
        BadElement(payload, utf8, maxSize, k);
        return chunks, Failure(CodecError);
      }
      decoded := decoded + source.data;
      if utf8.Some? && !utf8.value.prefix(decoded) {
        BadElement(payload, utf8, maxSize, k);
        return chunks, Failure(CodecError);
      }
      var fits: bool;
      ghost var before := chunks;
      chunks, fits := WriteSource(source.data, chunks, offset, maxChunk, maxSize);
      CutHere(payload, k, before, chunks, maxChunk);
      if !fits {
        PayloadPrefix(payload, k + 1);
        OverflowsHere(payload, utf8, maxSize, k);
        return chunks, Failure(CapabilityError);
      }
      offset := offset + |source.data|;
    }
    assert payload[..|payload|] == payload;
    NoOverflow(payload, utf8, maxSize);
    GoodThroughout(payload, utf8);
    if utf8.Some? && !utf8.value.whole(decoded) {
      return chunks, Failure(CodecError);
    }
    if size.Some? && offset != size.value {
      return chunks, Failure(CodecError);
    }
    r := Success(());
  }

  lemma NoChunks(payload: seq<Source>, utf8: Option<Utf8>, maxChunk: nat)
    ensures GoodSoFar(payload, utf8, 0) && WellChunked([], maxChunk)
  {
  }

  lemma GoodStep(payload: seq<Source>, utf8: Option<Utf8>, k: nat)
    requires k < |payload| && GoodSoFar(payload, utf8, k)
    ensures GoodSoFar(payload, utf8, k + 1) <==>
              payload[k].Chunked? && (utf8.Some? ==> utf8.value.prefix(PayloadOf(payload[..k + 1])))
  {
    hide AllBytes, PayloadOf;
    PayloadStep(payload, k);
  }

  lemma GoodThroughout(payload: seq<Source>, utf8: Option<Utf8>)
    ensures GoodSoFar(payload, utf8, |payload|) && (utf8.Some? ==> utf8.value.whole(PayloadOf(payload))) <==>
            AllBytes(payload) && Decodes(utf8, payload)
  {
    hide PayloadOf;
    assert payload[..|payload|] == payload;
  }

  /** The new chunks, all cut from element k, join the others. */
  lemma CutHere(payload: seq<Source>, k: nat, before: seq<LobChunk>, chunks: seq<LobChunk>, maxChunk: nat)
    requires k < |payload| && before <= chunks
    requires forall c | c in before :: exists j :: CutFrom(payload, j, c, maxChunk)
    requires forall i :: |before| <= i < |chunks| ==>
                           var c, start, end := chunks[i], |PayloadOf(payload[..k])|, |PayloadOf(payload[..k + 1])|;
                           && start <= c.offset && c.offset + |c.data| <= end
                           && (|c.data| == maxChunk || c.offset + |c.data| == end)
    ensures forall c | c in chunks :: exists j :: CutFrom(payload, j, c, maxChunk)
  {
    hide PayloadOf;
    forall c | c in chunks ensures exists j :: CutFrom(payload, j, c, maxChunk) {
      if c !in before {
        var i :| 0 <= i < |chunks| && chunks[i] == c;
        assert CutFrom(payload, k, c, maxChunk);
      }
    }
  }

  lemma OverflowsHere(payload: seq<Source>, utf8: Option<Utf8>, maxSize: nat, k: nat)
    requires k < |payload| && GoodSoFar(payload, utf8, k + 1)
    requires |PayloadOf(payload[..k])| <= maxSize < |PayloadOf(payload[..k + 1])|
    ensures Overflows(payload, utf8, maxSize)
  {
    hide GoodSoFar, PayloadOf;
    assert OverflowsAt(payload, utf8, maxSize, k);
  }

  /** What is within the limit as a whole never passed it. */
  lemma NoOverflow(payload: seq<Source>, utf8: Option<Utf8>, maxSize: nat)
    requires |PayloadOf(payload)| <= maxSize
    ensures !Overflows(payload, utf8, maxSize)
  {
    hide GoodSoFar, PayloadOf;
    forall k | 0 <= k < |payload| ensures !OverflowsAt(payload, utf8, maxSize, k) {
      PayloadPrefix(payload, k + 1);
    }
  }

  /** With an element that is not good before any limit is passed, nothing passes it, or succeeds. */
  lemma BadElement(payload: seq<Source>, utf8: Option<Utf8>, maxSize: nat, k: nat)
    requires k < |payload| && GoodSoFar(payload, utf8, k) && !GoodSoFar(payload, utf8, k + 1)
    requires |PayloadOf(payload[..k])| <= maxSize
    ensures !Overflows(payload, utf8, maxSize)
    ensures !(AllBytes(payload) && Decodes(utf8, payload))
  {
    hide PayloadOf, Decodes, AllBytes, GoodSoFar;
    forall j | 0 <= j < |payload| ensures !OverflowsAt(payload, utf8, maxSize, j) {
      if j < k {
        assert payload[..k][..j + 1] == payload[..j + 1];
        PayloadPrefix(payload[..k], j + 1);
      } else if GoodSoFar(payload, utf8, j + 1) {
        GoodBefore(payload, utf8, k + 1, j + 1);
      }
    }
    if GoodSoFar(payload, utf8, |payload|) {
      GoodBefore(payload, utf8, k + 1, |payload|);
    }
    GoodThroughout(payload, utf8);
  }

  lemma GoodBefore(payload: seq<Source>, utf8: Option<Utf8>, m: nat, n: nat)
    requires m <= n <= |payload| && GoodSoFar(payload, utf8, n)
    ensures GoodSoFar(payload, utf8, m)
  {
    assert forall s | s in payload[..m] :: s in payload[..n];
  }

  /**
   * One element of the payload, cut into full chunks and a last one with what is left,
   * until it is used up or the next chunk would pass the size limit.
   */
  method WriteSource(data: Data, before: seq<LobChunk>, start: nat, maxChunk: nat, maxSize: nat)
    returns (chunks: seq<LobChunk>, fits: bool)
    requires maxChunk > 0 && WellChunked(before, maxChunk) && start == |Written(before)| <= maxSize
    ensures WellChunked(chunks, maxChunk) && |Written(chunks)| <= maxSize
    ensures fits <==> start + |data| <= maxSize
    ensures before <= chunks && Written(chunks) <= Written(before) + data
    ensures fits ==> Written(chunks) == Written(before) + data
    ensures forall i :: |before| <= i < |chunks| ==>
                      var c := chunks[i];
                      && start <= c.offset && c.offset + |c.data| <= start + |data|
                      && (|c.data| == maxChunk || c.offset + |c.data| == start + |data|)
    ensures !fits ==>
              var left := start + |data| - |Written(chunks)|;
              |Written(chunks)| + (if maxChunk < left then maxChunk else left) > maxSize
  {
    hide Concat, WellChunked, Written;
    chunks := before;
    var offset := start;
    var begin := 0;
    while begin < |data|
      invariant 0 <= begin <= |data| && offset == start + begin
      invariant WellChunked(chunks, maxChunk) && offset == |Written(chunks)| <= maxSize
      invariant before <= chunks && Written(chunks) == Written(before) + data[..begin]
      invariant forall i :: |before| <= i < |chunks| ==>
                          var c := chunks[i];
                          && start <= c.offset && c.offset + |c.data| <= start + |data|
                          && (|c.data| == maxChunk || c.offset + |c.data| == start + |data|)
    {
      var end := if begin + maxChunk < |data| then begin + maxChunk else |data|;
      var chunk := data[begin..end];
      if offset + |chunk| > maxSize {
        return chunks, false;
      }
      ChunkSnoc(chunks, LobChunk(offset, chunk), maxChunk);
      assert data[..begin] + chunk == data[..end];
      chunks := chunks + [LobChunk(offset, chunk)];
      offset := offset + |chunk|;
      begin := end;
    }
    assert data[..|data|] == data;
    fits := true;
  }

  lemma PayloadStep(payload: seq<Source>, k: nat)
    requires k < |payload|
    ensures PayloadOf(payload[..k + 1]) == PayloadOf(payload[..k]) + if payload[k].Chunked? then payload[k].data else []
    ensures PayloadOf(payload[..k]) <= PayloadOf(payload)
    ensures AllBytes(payload[..k + 1]) <==> AllBytes(payload[..k]) && payload[k].Chunked?
  {
    hide AllBytes, PayloadOf;
    assert payload[..k + 1] == payload[..k] + [payload[k]];
    PayloadPrefix(payload, k);
    PayloadSnoc(payload[..k], payload[k]);
    AllBytesSnoc(payload[..k], payload[k]);
  }

  lemma PayloadSnoc(payload: seq<Source>, source: Source)
    ensures PayloadOf(payload + [source]) == PayloadOf(payload) + if source.Chunked? then source.data else []
  {
    assert (payload + [source])[..|payload|] == payload;
  }

  lemma AllBytesSnoc(payload: seq<Source>, source: Source)
    ensures AllBytes(payload + [source]) <==> AllBytes(payload) && source.Chunked?
  {
    assert source in payload + [source];
    assert forall s | s in payload :: s in payload + [source];
  }

  lemma {:induction false} PayloadPrefix(payload: seq<Source>, k: nat)
    requires k <= |payload|
    ensures PayloadOf(payload[..k]) <= PayloadOf(payload)
  {
    if k == |payload| {
      assert payload[..k] == payload;
    } else {
      var init := payload[..|payload| - 1];
      PayloadPrefix(init, k);
      assert init[..k] == payload[..k];
    }
  }

  // ---- what is written can be read back ----

  /** A server that answers a read with the chunks it was sent, the last one marked. */
  function Replay(chunks: seq<LobChunk>): (r: seq<LobResponse>)
    ensures |r| == if chunks == [] then 1 else |chunks|
  {
    if chunks == [] then [LobResponse(0, [], true)]
    else seq(|chunks|, i requires 0 <= i < |chunks| => LobResponse(chunks[i].offset, chunks[i].data, i == |chunks| - 1))
  }

  /** Reading back well-formed chunks completes and hands out exactly what was written. */
  lemma WrittenIsReadBack(chunks: seq<LobChunk>, maxChunk: nat, length: Option<int>)
    requires WellChunked(chunks, maxChunk)
    requires length.Some? ==> length.value == |Written(chunks)|
    ensures var t := ReadLob(0, 0, length, maxChunk, Replay(chunks), Clean);
            t.verdict.Completed? && Concat(t.pieces) == Written(chunks)
  {
    hide Concat, ReadLob;
    var rs := Replay(chunks);
    if chunks == [] {
      assert DataOf(rs) == [] + [[]];
      ConcatSnoc([], []);
      EmptyConcat([]);
      EmptyConcat(ChunkData(chunks));
      EmptyConcat(DataOf(rs[..0]));
    } else {
      assert DataOf(rs) == ChunkData(chunks);
      forall i | 0 <= i < |rs| ensures DataOf(rs[..i]) == ChunkData(chunks[..i]) {}
    }
    CompletesExactlyOnWholeReads(0, length, maxChunk, rs, Clean);
  }

  // ---- what a read request may ask for ----

  /** The range checks of `read_lob` against the reference, before anything is sent. */
  function RangeRefusal(size: Option<int>, offset: int, length: Option<int>, chunk: int, maxChunk: nat): Option<Error> {
    if offset < 0 || (length.Some? && length.value < 0) then Some(ConfigurationError)
    else if size.Some? && offset > size.value then Some(ConfigurationError)
    else if size.Some? && length.Some? && offset + length.value > size.value then Some(ConfigurationError)
    else if chunk < 0 || chunk > maxChunk then Some(CapabilityError)
    else None
  }

  /**
   * A range is admitted exactly when it lies inside the referenced object, as far as its
   * size is known, and the chunk size is no more than the server offers.
   */
  lemma RangeAdmitted(size: Option<int>, offset: int, length: Option<int>, chunk: int, maxChunk: nat)
    ensures var inside := && 0 <= offset && (length.Some? ==> 0 <= length.value)
                          && (size.Some? ==> offset + (if length.Some? then length.value else 0) <= size.value);
            RangeRefusal(size, offset, length, chunk, maxChunk)
            == if !inside then Some(ConfigurationError)
               else if 0 <= chunk <= maxChunk then None
               else Some(CapabilityError)
  {
  }

  /** With a length, a completed read of an admitted range stays inside the referenced object. */
  lemma RangedReadStaysInside(
    size: int, offset: int, length: int, chunk: int, maxChunk: nat, rs: seq<LobResponse>, ending: Ending)
    requires RangeRefusal(Some(size), offset, Some(length), chunk, maxChunk).None?
    ensures var t := ReadLob(offset, 0, Some(length), if chunk > 0 then chunk else maxChunk, rs, ending);
            t.verdict.Completed? ==> |Concat(t.pieces)| == length && offset + |Concat(t.pieces)| <= size
  {
    CompletesExactlyOnWholeReads(offset, Some(length), if chunk > 0 then chunk else maxChunk, rs, ending);
  }

  /** Responses of one byte each that read so many bytes from an offset, and then the end. */
  function Bytewise(offset: int, count: nat): seq<LobResponse>
    decreases count
  {
    if count == 0 then [LobResponse(offset, [], true)]
    else [LobResponse(offset, [0], false)] + Bytewise(offset + 1, count - 1)
  }

  lemma {:induction false} BytewiseCompletes(offset: int, read: int, length: Option<int>, maxChunk: int, count: nat)
    requires maxChunk > 0 && (length.Some? ==> read + count == length.value)
    ensures var t := ReadLob(offset, read, length, maxChunk, Bytewise(offset, count), Clean);
            t.verdict.Completed? && |Concat(t.pieces)| == count
    decreases count
  {
    var rs := Bytewise(offset, count);
    var t := ReadLob(offset, read, length, maxChunk, rs, Clean);
    if count == 0 {
      assert t.pieces == [] + [[]];
      ConcatSnoc([], []);
    } else {
      BytewiseCompletes(offset + 1, read + 1, length, maxChunk, count - 1);
      var rest := ReadLob(offset + 1, read + 1, length, maxChunk, Bytewise(offset + 1, count - 1), Clean);
      assert rs[1..] == Bytewise(offset + 1, count - 1);
      ConcatCons([0], rest.pieces);
    }
  }

  /** The end of the object is reached by every read of this range that completes. */
  ghost predicate ReachesTheEnd(size: int, offset: int, length: Option<int>, maxChunk: int) {
    forall rs, ending ::
      var t := ReadLob(offset, 0, length, maxChunk, rs, ending);
      t.verdict.Completed? ==> offset + |Concat(t.pieces)| == size
  }

  /**
   * Of all the reads a reference of known size admits, exactly those that ask for the rest
   * by its length are sure to end where the object ends; without a length, or with another
   * one, a server can end them elsewhere. A chunk limit is positive wherever LOBs are read.
   */
  lemma ReachesTheEndExactly(size: int, offset: int, length: Option<int>, chunk: int, maxChunk: nat)
    requires maxChunk > 0 && RangeRefusal(Some(size), offset, length, chunk, maxChunk).None?
    ensures ReachesTheEnd(size, offset, length, if chunk > 0 then chunk else maxChunk) <==>
            length == Some(size - offset)
  {
    var limit := if chunk > 0 then chunk else maxChunk;
    if length == Some(size - offset) {
      forall rs, ending
        ensures var t := ReadLob(offset, 0, length, limit, rs, ending);
                t.verdict.Completed? ==> offset + |Concat(t.pieces)| == size
      {
        CompletesExactlyOnWholeReads(offset, length, limit, rs, ending);
      }
    } else {
      var count := if length.Some? then length.value else if offset == size then 1 else 0;
      BytewiseCompletes(offset, 0, length, limit, count);
      var t := ReadLob(offset, 0, length, limit, Bytewise(offset, count), Clean);
      assert t.verdict.Completed? && offset + |Concat(t.pieces)| != size;
    }
  }
}
