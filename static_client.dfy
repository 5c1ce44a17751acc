/**
 * The chat widget of `static/chatbot.js`: the same read loop as the public
 * widget, but it sends only the input, keeps no conversation state, and
 * reads the Responses API's own event shape: a frame whose `type` is
 * `response.output_text.delta` appends its `delta`.
 */
module StaticClient {
  import opened Wrappers
  import opened Text
  import opened Json
  import opened Frames
  import opened Seqs
  import opened Widget

  const TextDeltaType := "response.output_text.delta"

  /** `chunk.type === 'response.output_text.delta' && chunk.delta` */
  predicate IsTextDelta(chunk: Value)
  {
    Prop(chunk, "type") == Some(Str(TextDeltaType)) && JsTruthyProp(Prop(chunk, "delta"))
  }

  /** The piece a decoded frame appends: `String(chunk.delta)` for a text delta. */
  function ChunkPiece(chunk: Value): seq<string>
  {
    if IsTextDelta(chunk) then [JsString(Prop(chunk, "delta").value)] else []
  }

  function FramePiece(frame: string, parse: Parser): seq<string>
  {
    match FrameValue(frame, parse)
    case None => []
    case Some(chunk) => ChunkPiece(chunk)
  }

  function PiecesOf(parse: Parser): string -> seq<string>
  {
    frame => FramePiece(frame, parse)
  }

  /** The pieces a run of frames appends, in frame order. */
  function FramesPieces(frames: seq<string>, parse: Parser): seq<string>
  {
    Collect(frames, PiecesOf(parse))
  }

  /** A frame appends at most one piece, and only a text delta frame appends one. */
  lemma FramePieceShape(frame: string, parse: Parser)
    ensures |FramePiece(frame, parse)| <= 1
    ensures FramePiece(frame, parse) != [] <==>
      StartsWith(frame, "data: ") && parse(frame[6..]).Some? && IsTextDelta(parse(frame[6..]).value)
  {
  }

  lemma FrameStep(frames: seq<string>, j: nat, parse: Parser)
    requires j < |frames|
    ensures FramesPieces(frames[..j + 1], parse) == FramesPieces(frames[..j], parse) + FramePiece(frames[j], parse)
  {
    assert frames[..j + 1] == frames[..j] + [frames[j]];
    CollectSnoc(frames[..j], frames[j], PiecesOf(parse));
  }

  /** One frame of the `for (const line of lines)` loop. */
  method ProcessFrame(frame: string, parse: Parser, msg: string, bubble: bool)
    returns (msg': string, bubble': bool)
    ensures msg' == msg + Concat(FramePiece(frame, parse))
    ensures bubble' == (bubble || FramePiece(frame, parse) != [])
  {
    msg', bubble' := msg, bubble;
    if !StartsWith(frame, "data: ") {
      return;
    }
    var parsed := parse(frame[6..]);
    if parsed.None? {
      return;
    }
    var chunk := parsed.value;
    if IsTextDelta(chunk) {
      ConcatSingle(JsString(Prop(chunk, "delta").value));
      bubble' := true;
      msg' := msg' + JsString(Prop(chunk, "delta").value);
    }
  }

  /** The `for (const line of lines)` loop over the frames one chunk completes. */
  method ProcessFrames(frames: seq<string>, parse: Parser, msg: string, bubble: bool)
    returns (msg': string, bubble': bool)
    ensures msg' == msg + Concat(FramesPieces(frames, parse))
    ensures bubble' == (bubble || FramesPieces(frames, parse) != [])
  {
    msg', bubble' := msg, bubble;
    var j := 0;
    assert frames[..0] == [];
    while j < |frames|
      invariant 0 <= j <= |frames|
      invariant msg' == msg + Concat(FramesPieces(frames[..j], parse))
      invariant bubble' == (bubble || FramesPieces(frames[..j], parse) != [])
    {
      FrameStep(frames, j, parse);
      ConcatExtend(msg, FramesPieces(frames[..j], parse), FramePiece(frames[j], parse));
      msg', bubble' := ProcessFrame(frames[j], parse, msg', bubble');
      j := j + 1;
    }
    assert frames[..j] == frames;
  }

  /**
   * The `while (true)` read loop: the frames processed are exactly the
   * complete frames of all the text received, in order, whatever the
   * chunking; the bubble exists exactly when some text delta arrived.
   */
  method ReadStream(chunks: seq<string>, parse: Parser) returns (msg: string, bubble: bool)
    ensures msg == Concat(FramesPieces(Complete(Concat(chunks)), parse))
    ensures bubble <==> FramesPieces(Complete(Concat(chunks)), parse) != []
    ensures msg != "" ==> bubble
  {
    msg, bubble := "", false;
    var buffer := "";
    NothingReceived(chunks);
    var i := 0;
    while i < |chunks|
      invariant 0 <= i <= |chunks|
      invariant buffer == Pending(Concat(chunks[..i]))
      invariant msg == Concat(FramesPieces(Complete(Concat(chunks[..i])), parse))
      invariant bubble <==> FramesPieces(Complete(Concat(chunks[..i])), parse) != []
    {
      ChunkStep(chunks, i);
      var done := Complete(Concat(chunks[..i]));
      buffer := buffer + chunks[i];
      var lines := Split(buffer);
      var frames := lines[..|lines| - 1];
      assert frames == Complete(buffer);
      buffer := lines[|lines| - 1];
      CollectAppend(done, frames, PiecesOf(parse));
      ConcatAppend(FramesPieces(done, parse), FramesPieces(frames, parse));
      msg, bubble := ProcessFrames(frames, parse, msg, bubble);
      i := i + 1;
    }
    assert chunks[..|chunks|] == chunks;
  }

  /** The assistant messages an exchange adds after the user's. */
  function Shown(exchange: Exchange, parse: Parser): seq<Message>
  {
    match exchange
    case FetchFailed => AssistantMessages([], true)
    case NoBody => AssistantMessages([], true)
    case Body(chunks, readFails) => AssistantMessages(FramesPieces(Complete(Concat(chunks)), parse), readFails)
  }

  /** What the widget does with the exchange once the request is sent. */
  method Respond(exchange: Exchange, parse: Parser) returns (shown: seq<Message>)
    ensures shown == Shown(exchange, parse)
  {
    shown := [];
    match exchange
    case FetchFailed =>
      shown := [Message(Assistant, SorryText)];
    case NoBody =>
      shown := [Message(Assistant, SorryText)];
    case Body(chunks, readFails) =>
      var msg, bubble := ReadStream(chunks, parse);
      if bubble {
        shown := shown + [Message(Assistant, msg)];
      }
      if readFails {
        shown := shown + [Message(Assistant, SorryText)];
        return;
      }
      if !bubble && msg != "" {
        assert false;
      }
  }

  /** The request body: the input alone. */
  function RequestBody(text: string): (r: Value)
    ensures r.Obj? && r.fields.Keys == {"input"} && r.fields["input"] == Str(text)
  {
    Obj(map["input" := Str(text)])
  }

  /** The page's widget: no state survives between messages beyond what is shown. */
  class StaticWidget {
    var inputValue: string
    var transcript: seq<Message>

    constructor ()
      ensures inputValue == "" && transcript == []
    {
      inputValue := "";
      transcript := [];
    }

    /**
     * `sendMessage`: a whitespace-only input does nothing; otherwise the user
     * message is shown, the input alone is sent, and the outcome of the
     * exchange is shown.
     */
    method SendMessage(exchange: Exchange, parse: Parser) returns (sent: Option<Value>)
      modifies this
      ensures Trim(JavaScript, old(inputValue)) == "" ==>
        sent == None && unchanged(this)
      ensures Trim(JavaScript, old(inputValue)) != "" ==>
        var text := Trim(JavaScript, old(inputValue));
        && sent == Some(RequestBody(text))
        && inputValue == ""
        && transcript == old(transcript) + [Message(User, text)] + Shown(exchange, parse)
    {
      var text := Trim(JavaScript, inputValue);
      if text == "" {
        return None;
      }
      sent := Some(RequestBody(text));
      var shown := Respond(exchange, parse);
      transcript := transcript + [Message(User, text)] + shown;
      inputValue := "";
    }
  }
}
