/**
 * The chat widget of `public/chatbot.js`: `sendMessage` reads the proxy's
 * event stream chunk by chunk, cuts it into frames at "\n\n", and appends the
 * text of every delta frame to the assistant's message; it also keeps the
 * conversation's `previous_response_id` and `session` between messages.
 *
 * `JSON.parse` is a parameter (`None` when it throws); the HTTP exchange is
 * given as its outcome (`Exchange`); the DOM is reduced to the transcript of
 * messages shown.
 */
module PublicClient {
  import opened Wrappers
  import opened Text
  import opened Json
  import opened Frames
  import opened Seqs
  import opened Widget

  // ---------------------------------------------------------------------------
  // What one frame contributes

  /** `block.type === 'text' && block.text && block.text.value` */
  predicate IsTextBlock(block: Value)
  {
    && Prop(block, "type") == Some(Str("text"))
    && JsTruthyProp(Prop(block, "text"))
    && JsTruthyProp(Prop(Prop(block, "text").value, "value"))
  }

  /** The text a block appends: `String(block.text.value)`. */
  function BlockText(block: Value): string
    requires IsTextBlock(block)
  {
    JsString(Prop(Prop(block, "text").value, "value").value)
  }

  /** The pieces one block appends: its text when it is a text block. */
  function BlockPiece(block: Value): seq<string>
  {
    if IsTextBlock(block) then [BlockText(block)] else []
  }

  /** The pieces `blocks` append, one per text block, in order. */
  function BlockPieces(blocks: seq<Value>): seq<string>
  {
    Collect(blocks, BlockPiece)
  }

  /**
   * Where iteration over the blocks stops: reading `.type` of a `null` block
   * throws, and the frame's `catch` swallows the error after the earlier
   * blocks have been appended.
   */
  function FirstNull(blocks: seq<Value>): (r: nat)
    ensures r <= |blocks|
    ensures forall k :: 0 <= k < r ==> blocks[k] != Null
    ensures r < |blocks| ==> blocks[r] == Null
    decreases |blocks|
  {
    if blocks == [] || blocks[0] == Null then 0 else 1 + FirstNull(blocks[1..])
  }

  /**
   * `chunk.event === 'thread.message.delta' && chunk.data &&
   * chunk.data.delta && chunk.data.delta.content`
   */
  predicate IsDeltaChunk(chunk: Value)
  {
    && Prop(chunk, "event") == Some(Str("thread.message.delta"))
    && JsTruthyProp(Prop(chunk, "data"))
    && JsTruthyProp(Prop(Prop(chunk, "data").value, "delta"))
    && JsTruthyProp(Prop(Prop(Prop(chunk, "data").value, "delta").value, "content"))
  }

  function DeltaContent(chunk: Value): Value
    requires IsDeltaChunk(chunk)
  {
    Prop(Prop(Prop(chunk, "data").value, "delta").value, "content").value
  }

  /**
   * The pieces a decoded frame appends. Only an array of blocks yields any:
   * iterating a string yields characters, which are no text blocks, and
   * iterating anything else throws before the first block.
   */
  function ChunkPieces(chunk: Value): seq<string>
  {
    if IsDeltaChunk(chunk) && DeltaContent(chunk).Arr? then
      var blocks := DeltaContent(chunk).items;
      BlockPieces(blocks[..FirstNull(blocks)])
    else []
  }

  /**
   * `chunk.event === 'previous_response_id' && chunk.data &&
   * chunk.data.previous_response_id`
   */
  predicate IsIdChunk(chunk: Value)
  {
    && Prop(chunk, "event") == Some(Str("previous_response_id"))
    && JsTruthyProp(Prop(chunk, "data"))
    && JsTruthyProp(Prop(Prop(chunk, "data").value, "previous_response_id"))
  }

  /** The continuation id a decoded frame carries, if any: always a truthy value. */
  function ChunkId(chunk: Value): (r: Option<Value>)
    ensures r.Some? ==> JsTruthy(r.value)
  {
    if IsIdChunk(chunk) then Prop(Prop(chunk, "data").value, "previous_response_id") else None
  }

  function FramePieces(frame: string, parse: Parser): seq<string>
  {
    match FrameValue(frame, parse)
    case None => []
    case Some(chunk) => ChunkPieces(chunk)
  }

  function FrameId(frame: string, parse: Parser): Option<Value>
  {
    match FrameValue(frame, parse)
    case None => None
    case Some(chunk) => ChunkId(chunk)
  }

  function PiecesOf(parse: Parser): string -> seq<string>
  {
    frame => FramePieces(frame, parse)
  }

  function IdOf(parse: Parser): string -> Option<Value>
  {
    frame => FrameId(frame, parse)
  }

  /** The pieces a run of frames appends, in frame order. */
  function FramesPieces(frames: seq<string>, parse: Parser): seq<string>
  {
    Collect(frames, PiecesOf(parse))
  }

  /** The continuation id after a run of frames: the last one received, or `start`. */
  function FramesId(frames: seq<string>, parse: Parser, start: Value): Value
  {
    LastOf(frames, IdOf(parse), start)
  }

  /** The id after a run of frames is the starting one or a truthy id received: it is never cleared. */
  lemma FramesIdTruthy(frames: seq<string>, parse: Parser, start: Value)
    ensures FramesId(frames, parse, start) == start || JsTruthy(FramesId(frames, parse, start))
  {
    LastOfCarried(frames, IdOf(parse), start);
  }

  // ---------------------------------------------------------------------------
  // The read loop

  lemma BlockStep(blocks: seq<Value>, j: nat)
    requires j < |blocks|
    ensures BlockPieces(blocks[..j + 1]) == BlockPieces(blocks[..j]) + BlockPiece(blocks[j])
  {
    assert blocks[..j + 1] == blocks[..j] + [blocks[j]];
    CollectSnoc(blocks[..j], blocks[j], BlockPiece);
  }

  /**
   * The `for (const block of chunk.data.delta.content)` loop: every text
   * block up to the first `null` one appends its text; `bubble` records that
   * one did.
   */
  method AppendBlocks(blocks: seq<Value>, msg: string, bubble: bool) returns (msg': string, bubble': bool)
    ensures msg' == msg + Concat(BlockPieces(blocks[..FirstNull(blocks)]))
    ensures bubble' == (bubble || BlockPieces(blocks[..FirstNull(blocks)]) != [])
  {
    msg', bubble' := msg, bubble;
    var j := 0;
    while j < |blocks|
      invariant 0 <= j <= |blocks|
      invariant j <= FirstNull(blocks)
      invariant msg' == msg + Concat(BlockPieces(blocks[..j]))
      invariant bubble' == (bubble || BlockPieces(blocks[..j]) != [])
    {
      var block := blocks[j];
      if block == Null {
        break;
      }
      BlockStep(blocks, j);
      ConcatExtend(msg, BlockPieces(blocks[..j]), BlockPiece(block));
      if IsTextBlock(block) {
        bubble' := true;
        msg' := msg' + BlockText(block);
      }
      j := j + 1;
    }
  }

  /**
   * One frame of the `for (const line of lines)` loop: a delta frame appends
   * its text blocks, an id frame replaces the id, and anything else (no
   * `data: ` prefix, text that does not parse) is skipped.
   */
  method ProcessFrame(frame: string, parse: Parser, msg: string, bubble: bool, lastId: Value)
    returns (msg': string, bubble': bool, lastId': Value)
    ensures msg' == msg + Concat(FramePieces(frame, parse))
    ensures bubble' == (bubble || FramePieces(frame, parse) != [])
    ensures lastId' == (match FrameId(frame, parse) case Some(id) => id case None => lastId)
  {
    msg', bubble', lastId' := msg, bubble, lastId;
    if !StartsWith(frame, "data: ") {
      return;
    }
    var parsed := parse(frame[6..]);
    if parsed.None? {
      return;
    }
    var chunk := parsed.value;
    if IsDeltaChunk(chunk) {
      var content := DeltaContent(chunk);
      if content.Arr? {
        msg', bubble' := AppendBlocks(content.items, msg, bubble);
      }
    } else if IsIdChunk(chunk) {
      lastId' := Prop(Prop(chunk, "data").value, "previous_response_id").value;
    }
  }

  /** Processing one more frame. */
  lemma FrameStep(frames: seq<string>, j: nat, parse: Parser, start: Value)
    requires j < |frames|
    ensures FramesPieces(frames[..j + 1], parse) == FramesPieces(frames[..j], parse) + FramePieces(frames[j], parse)
    ensures FramesId(frames[..j + 1], parse, start)
         == match FrameId(frames[j], parse)
            case Some(id) => id
            case None => FramesId(frames[..j], parse, start)
  {
    assert frames[..j + 1] == frames[..j] + [frames[j]];
    CollectSnoc(frames[..j], frames[j], PiecesOf(parse));
    LastOfSnoc(frames[..j], frames[j], IdOf(parse), start);
  }

  /** The read loop's state after `frames` from (`msg`, `bubble`, `lastId`). */
  predicate AfterFrames(frames: seq<string>, parse: Parser, msg: string, bubble: bool, lastId: Value,
                        msg': string, bubble': bool, lastId': Value)
  {
    && msg' == msg + Concat(FramesPieces(frames, parse))
    && bubble' == (bubble || FramesPieces(frames, parse) != [])
    && lastId' == FramesId(frames, parse, lastId)
  }

  /** Processing frame `j` after the first `j` gives the state after the first `j + 1`. */
  lemma AfterNextFrame(frames: seq<string>, j: nat, parse: Parser, msg: string, bubble: bool, lastId: Value,
                       m: string, b: bool, l: Value, m': string, b': bool, l': Value)
    requires j < |frames|
    requires AfterFrames(frames[..j], parse, msg, bubble, lastId, m, b, l)
    requires m' == m + Concat(FramePieces(frames[j], parse))
    requires b' == (b || FramePieces(frames[j], parse) != [])
    requires l' == (match FrameId(frames[j], parse) case Some(id) => id case None => l)
    ensures AfterFrames(frames[..j + 1], parse, msg, bubble, lastId, m', b', l')
  {
    FrameStep(frames, j, parse, lastId);
    ConcatExtend(msg, FramesPieces(frames[..j], parse), FramePieces(frames[j], parse));
  }

  /** The `for (const line of lines)` loop over the frames one chunk completes. */
  method ProcessFrames(frames: seq<string>, parse: Parser, msg: string, bubble: bool, lastId: Value)
    returns (msg': string, bubble': bool, lastId': Value)
    ensures msg' == msg + Concat(FramesPieces(frames, parse))
    ensures bubble' == (bubble || FramesPieces(frames, parse) != [])
    ensures lastId' == FramesId(frames, parse, lastId)
  {
    msg', bubble', lastId' := msg, bubble, lastId;
    var j := 0;
    assert frames[..0] == [];
    while j < |frames|
      invariant 0 <= j <= |frames|
      invariant AfterFrames(frames[..j], parse, msg, bubble, lastId, msg', bubble', lastId')
    {
      var m, b, l := ProcessFrame(frames[j], parse, msg', bubble', lastId');
      AfterNextFrame(frames, j, parse, msg, bubble, lastId, msg', bubble', lastId', m, b, l);
      msg', bubble', lastId' := m, b, l;
      j := j + 1;
    }
    assert frames[..j] == frames;
  }

  /**
   * The `while (true)` read loop over the decoded chunks of the response
   * body: the frames processed are exactly the complete frames of all the
   * text received, each once and in order, whatever the chunking; an
   * unterminated tail is never processed. The message is the text of their
   * pieces, and the bubble exists exactly when some text block was seen, so
   * a non-empty message always has its bubble.
   */
  method ReadStream(chunks: seq<string>, parse: Parser, startId: Value)
    returns (msg: string, bubble: bool, lastId: Value)
    ensures msg == Concat(FramesPieces(Complete(Concat(chunks)), parse))
    ensures bubble <==> FramesPieces(Complete(Concat(chunks)), parse) != []
    ensures lastId == FramesId(Complete(Concat(chunks)), parse, startId)
    ensures msg != "" ==> bubble
  {
    msg, bubble, lastId := "", false, startId;
    var buffer := "";
    NothingReceived(chunks);
    var i := 0;
    while i < |chunks|
      invariant 0 <= i <= |chunks|
      invariant buffer == Pending(Concat(chunks[..i]))
      invariant msg == Concat(FramesPieces(Complete(Concat(chunks[..i])), parse))
      invariant bubble <==> FramesPieces(Complete(Concat(chunks[..i])), parse) != []
      invariant lastId == FramesId(Complete(Concat(chunks[..i])), parse, startId)
    {
      ChunkStep(chunks, i);
      var done := Complete(Concat(chunks[..i]));
      buffer := buffer + chunks[i];
      var lines := Split(buffer);
      var frames := lines[..|lines| - 1];
      assert frames == Complete(buffer);
      buffer := lines[|lines| - 1];
      CollectAppend(done, frames, PiecesOf(parse));
      LastOfAppend(done, frames, IdOf(parse), startId);
      ConcatAppend(FramesPieces(done, parse), FramesPieces(frames, parse));
      msg, bubble, lastId := ProcessFrames(frames, parse, msg, bubble, lastId);
      i := i + 1;
    }
    assert chunks[..|chunks|] == chunks;
  }

  // ---------------------------------------------------------------------------
  // The widget

  /** The `session` variable's value as `JSON.stringify` sends it. */
  function SessionValue(session: Option<string>): Value
  {
    match session
    case Some(s) => Str(s)
    case None => Null
  }

  /**
   * The request body: always the input and the session, and the continuation
   * id only when it is truthy.
   */
  function RequestBody(text: string, session: Option<string>, previous: Value): (r: Value)
    ensures r.Obj? && "input" in r.fields && "session" in r.fields
    ensures r.fields["input"] == Str(text) && r.fields["session"] == SessionValue(session)
    ensures "previous_response_id" in r.fields <==> JsTruthy(previous)
    ensures "previous_response_id" in r.fields ==> r.fields["previous_response_id"] == previous
    ensures |r.fields| == if JsTruthy(previous) then 3 else 2
  {
    var body := map["input" := Str(text), "session" := SessionValue(session)];
    if JsTruthy(previous) then Obj(body["previous_response_id" := previous]) else Obj(body)
  }

  /** What an exchange leaves: the pieces shown, the last id, and whether it ended in an error. */
  datatype Outcome = Outcome(pieces: seq<string>, lastId: Value, failed: bool)

  function ExchangeOutcome(exchange: Exchange, parse: Parser, start: Value): Outcome
  {
    match exchange
    case FetchFailed => Outcome([], start, true)
    case NoBody => Outcome([], start, true)
    case Body(chunks, readFails) =>
      var frames := Complete(Concat(chunks));
      Outcome(FramesPieces(frames, parse), FramesId(frames, parse, start), readFails)
  }

  /**
   * What the widget does with the exchange after the user message is shown:
   * the assistant messages it adds, and the continuation id kept for the
   * next message, which changes only to a truthy id received on a stream
   * that ended without error.
   */
  method Respond(exchange: Exchange, parse: Parser, previous: Value) returns (shown: seq<Message>, next: Value)
    ensures shown == Shown(exchange, parse, previous)
    ensures next == NextId(exchange, parse, previous)
  {
    shown, next := [], previous;
    match exchange
    case FetchFailed =>
      shown := [Message(Assistant, SorryText)];
    case NoBody =>
      shown := [Message(Assistant, SorryText)];
    case Body(chunks, readFails) =>
      var msg, bubble, lastReceived := ReadStream(chunks, parse, previous);
      if bubble {
        shown := shown + [Message(Assistant, msg)];
      }
      if readFails {
        shown := shown + [Message(Assistant, SorryText)];
        return;
      }
      if JsTruthy(lastReceived) {
        next := lastReceived;
      }
      if !bubble && msg != "" {
        assert false;
      }
  }

  function Shown(exchange: Exchange, parse: Parser, previous: Value): seq<Message>
  {
    var o := ExchangeOutcome(exchange, parse, previous);
    AssistantMessages(o.pieces, o.failed)
  }

  function NextId(exchange: Exchange, parse: Parser, previous: Value): Value
  {
    var o := ExchangeOutcome(exchange, parse, previous);
    if !o.failed && JsTruthy(o.lastId) then o.lastId else previous
  }

  /** A truthy continuation id is never cleared: it is kept or replaced by another truthy one. */
  lemma NextIdKeepsTruthy(exchange: Exchange, parse: Parser, previous: Value)
    ensures JsTruthy(previous) ==> JsTruthy(NextId(exchange, parse, previous))
    ensures NextId(exchange, parse, previous) == previous || JsTruthy(NextId(exchange, parse, previous))
  {
    if exchange.Body? {
      FramesIdTruthy(Complete(Concat(exchange.chunks)), parse, previous);
    }
  }

  /** `session` is truthy. */
  predicate HasSession(session: Option<string>)
  {
    session.Some? && session.value != ""
  }

  /** The page's widget and the two variables that persist between messages. */
  class ChatWidget {
    var inputValue: string
    var transcript: seq<Message>
    var previousResponseId: Value
    var session: Option<string>

    constructor ()
      ensures inputValue == "" && transcript == [] && previousResponseId == Null && session == None
    {
      inputValue := "";
      transcript := [];
      previousResponseId := Null;
      session := None;
    }

    /**
     * `sendMessage`: a whitespace-only input does nothing. Otherwise the user
     * message is shown, a session id is generated (`freshId`) only when there
     * is none, the request body is sent, and the outcome of the exchange is
     * shown; the continuation id is replaced only by a truthy id from a
     * stream that ended without error.
     */
    method SendMessage(exchange: Exchange, freshId: string, parse: Parser) returns (sent: Option<Value>)
      modifies this
      ensures Trim(JavaScript, old(inputValue)) == "" ==>
        sent == None && unchanged(this)
      ensures Trim(JavaScript, old(inputValue)) != "" ==>
        var text := Trim(JavaScript, old(inputValue));
        && session == (if HasSession(old(session)) then old(session) else Some(freshId))
        && sent == Some(RequestBody(text, session, old(previousResponseId)))
        && inputValue == ""
        && transcript == old(transcript) + [Message(User, text)] + Shown(exchange, parse, old(previousResponseId))
        && previousResponseId == NextId(exchange, parse, old(previousResponseId))
    {
      var text := Trim(JavaScript, inputValue);
      if text == "" {
        sent := None;
      } else {
        var body := Send(text, exchange, freshId, parse);
        sent := Some(body);
      }
    }

    /** The part of `sendMessage` after the guard, for a non-empty `text`. */
    method Send(text: string, exchange: Exchange, freshId: string, parse: Parser) returns (body: Value)
      modifies this
      ensures session == (if HasSession(old(session)) then old(session) else Some(freshId))
      ensures body == RequestBody(text, session, old(previousResponseId))
      ensures inputValue == ""
      ensures transcript == old(transcript) + [Message(User, text)] + Shown(exchange, parse, old(previousResponseId))
      ensures previousResponseId == NextId(exchange, parse, old(previousResponseId))
    {
      var current := if HasSession(session) then session else Some(freshId);
      var previous := previousResponseId;
      body := RequestBody(text, current, previous);
      var shown, next := Respond(exchange, parse, previous);
      transcript := transcript + [Message(User, text)] + shown;
      inputValue := "";
      session := current;
      previousResponseId := next;
    }
  }
}
