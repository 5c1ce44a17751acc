/**
 * What the page shows of a run: the proxy's frames, sent as one event stream
 * however the network cuts it into chunks, read by each widget.
 *
 * `JSON.parse` stays a parameter; the one thing assumed of it is that it
 * decodes each payload the proxy writes to the object that payload spells
 * out (`PayloadValue`). That the escaped strings inside decode back to the
 * delta and the error message is proved in `Proxy.DeltaPayloadCarriesDelta`
 * and `Proxy.ErrorPayloadCarriesMessage`.
 */
module Delivery {
  import opened Wrappers
  import opened Text
  import opened Json
  import opened Frames
  import opened Seqs
  import opened Widget
  import opened Proxy
  import PublicClient
  import StaticClient

  /** The object a frame's payload spells out. */
  function PayloadValue(f: Frame): Value
  {
    match f
    case DeltaFrame(d) =>
      var block := Obj(map["type" := Str("text"), "text" := Obj(map["value" := Str(d)])]);
      Obj(map["event" := Str("thread.message.delta"),
              "data" := Obj(map["delta" := Obj(map["content" := Arr([block])])])])
    case ErrorFrame(m) =>
      Obj(map["event" := Str("error"), "data" := Obj(map["error" := Str(m)])])
  }

  /** `parse` decodes the payload of every one of `frames` to the object it spells out. */
  predicate Decodes(parse: Parser, frames: seq<Frame>)
  {
    All(frames, DecodesFrame(parse))
  }

  /** `parse` decodes the payload of a frame to the object it spells out. */
  function DecodesFrame(parse: Parser): Frame -> bool
  {
    f => parse(Payload(f)) == Some(PayloadValue(f))
  }

  /** The text of the whole stream: every frame's line and its terminator. */
  function Wire(events: seq<StreamEvent>, failure: Option<string>): string
  {
    Terminate(EventLines(StreamFrames(events, failure)))
  }

  /** The text a frame is meant to add to the conversation: a delta's. */
  function FrameText(f: Frame): seq<string>
  {
    if f.DeltaFrame? && f.delta != "" then [f.delta] else []
  }

  /**
   * However the stream is cut into chunks, the frames the widgets process
   * are exactly the proxy's, each once and in order, and nothing is left
   * in the buffer.
   */
  lemma WireFrames(events: seq<StreamEvent>, failure: Option<string>)
    ensures Complete(Wire(events, failure)) == EventLines(StreamFrames(events, failure))
    ensures Pending(Wire(events, failure)) == ""
  {
    var frames := StreamFrames(events, failure);
    var lines := EventLines(frames);
    EventLinesOneEach(frames);
    forall k | 0 <= k < |lines|
      ensures '\n' !in lines[k]
    {
      EventLineNoBreak(frames[k]);
    }
    SplitTerminated(lines);
  }

  lemma EventLineData(f: Frame)
    ensures StartsWith(EventLine(f), "data: ") && EventLine(f)[6..] == Payload(f)
  {
    StartsWithAppend("data: ", Payload(f));
  }

  /** The blocks of a delta payload: one text block holding the delta. */
  lemma DeltaChunk(d: string)
    ensures PublicClient.ChunkPieces(PayloadValue(DeltaFrame(d))) == FrameText(DeltaFrame(d))
    ensures PublicClient.ChunkId(PayloadValue(DeltaFrame(d))) == None
  {
    var v := PayloadValue(DeltaFrame(d));
    assert PublicClient.IsDeltaChunk(v);
    var blocks := PublicClient.DeltaContent(v).items;
    assert blocks == [blocks[0]] && blocks[0] != Null;
    assert PublicClient.FirstNull(blocks) == 1;
    assert blocks[..1] == [] + [blocks[0]];
    CollectSnoc([], blocks[0], PublicClient.BlockPiece);
  }

  lemma ErrorChunk(m: string)
    ensures PublicClient.ChunkPieces(PayloadValue(ErrorFrame(m))) == []
    ensures PublicClient.ChunkId(PayloadValue(ErrorFrame(m))) == None
  {
    var v := PayloadValue(ErrorFrame(m));
    assert !PublicClient.IsDeltaChunk(v) && !PublicClient.IsIdChunk(v);
  }

  /** The public widget appends a delta frame's text and nothing of an error frame, and takes no id from either. */
  lemma PublicFrame(f: Frame, parse: Parser)
    requires DecodesFrame(parse)(f)
    ensures PublicClient.FramePieces(EventLine(f), parse) == FrameText(f)
    ensures PublicClient.FrameId(EventLine(f), parse) == None
  {
    EventLineData(f);
    assert FrameValue(EventLine(f), parse) == Some(PayloadValue(f));
    match f
    case DeltaFrame(d) => DeltaChunk(d);
    case ErrorFrame(m) => ErrorChunk(m);
  }

  /** The static widget appends nothing of either kind of frame: it looks for a `type` the proxy never sends. */
  lemma StaticFrame(f: Frame, parse: Parser)
    requires DecodesFrame(parse)(f)
    ensures StaticClient.FramePiece(EventLine(f), parse) == []
  {
    EventLineData(f);
    assert FrameValue(EventLine(f), parse) == Some(PayloadValue(f));
    assert Prop(PayloadValue(f), "type") == None;
  }

  /** What the public widget takes from a run of the proxy's frames. */
  lemma PublicFrames(frames: seq<Frame>, parse: Parser, start: Value)
    requires Decodes(parse, frames)
    ensures PublicClient.FramesPieces(EventLines(frames), parse) == Collect(frames, FrameText)
    ensures PublicClient.FramesId(EventLines(frames), parse, start) == start
  {
    forall k | 0 <= k < |frames|
      ensures PublicClient.PiecesOf(parse)(EventLine(frames[k])) == FrameText(frames[k])
      ensures PublicClient.IdOf(parse)(EventLine(frames[k])).None?
    {
      assert DecodesFrame(parse)(frames[k]);
      PublicFrame(frames[k], parse);
    }
    CollectMap(frames, EventLine, PublicClient.PiecesOf(parse), FrameText);
    LastOfMapNone(frames, EventLine, PublicClient.IdOf(parse), start);
  }

  /** What the static widget takes from a run of the proxy's frames: nothing. */
  lemma StaticFrames(frames: seq<Frame>, parse: Parser)
    requires Decodes(parse, frames)
    ensures StaticClient.FramesPieces(EventLines(frames), parse) == []
  {
    var lines := EventLines(frames);
    EventLinesOneEach(frames);
    forall k | 0 <= k < |lines|
      ensures StaticClient.PiecesOf(parse)(lines[k]) == []
    {
      assert DecodesFrame(parse)(frames[k]);
      StaticFrame(frames[k], parse);
    }
    CollectNone(lines, StaticClient.PiecesOf(parse));
  }

  /** The text of the proxy's frames is the run's deltas: the error frame adds none. */
  lemma {:induction false} StreamText(events: seq<StreamEvent>, failure: Option<string>)
    ensures Collect(StreamFrames(events, failure), FrameText) == Deltas(events)
  {
    var ds := Deltas(events);
    DeltaFramesText(ds);
    var tail := if failure.Some? then [ErrorFrame(failure.value)] else [];
    CollectAppend(DeltaFrames(ds), tail, FrameText);
    if failure.Some? {
      CollectSnoc([], ErrorFrame(failure.value), FrameText);
      assert [] + [ErrorFrame(failure.value)] == tail;
    }
  }

  lemma {:induction false} DeltaFramesText(ds: seq<string>)
    requires forall i :: 0 <= i < |ds| ==> ds[i] != ""
    ensures Collect(DeltaFrames(ds), FrameText) == ds
    decreases |ds|
  {
    if ds != [] {
      var n := |ds| - 1;
      assert DeltaFrames(ds) == DeltaFrames(ds[..n]) + [DeltaFrame(ds[n])];
      DeltaFramesText(ds[..n]);
      CollectSnoc(DeltaFrames(ds[..n]), DeltaFrame(ds[n]), FrameText);
      assert ds == ds[..n] + [ds[n]];
    }
  }

  /**
   * Delivered to the public widget, a run shows one assistant message
   * holding all of its deltas joined, in order, when it streamed any; the
   * continuation id is left as it was, as the proxy never sends one; and a
   * run that failed on the server shows no apology, because the widget
   * ignores the error frame.
   */
  lemma PublicShowsDeltas(chunks: seq<string>, events: seq<StreamEvent>, failure: Option<string>,
                          parse: Parser, previous: Value)
    requires Concat(chunks) == Wire(events, failure)
    requires Decodes(parse, StreamFrames(events, failure))
    ensures PublicClient.Shown(Body(chunks, false), parse, previous)
         == (if Deltas(events) == [] then [] else [Message(Assistant, Concat(Deltas(events)))])
    ensures PublicClient.NextId(Body(chunks, false), parse, previous) == previous
  {
    var frames := StreamFrames(events, failure);
    var lines := Complete(Concat(chunks));
    WireFrames(events, failure);
    assert lines == EventLines(frames);
    PublicFrames(frames, parse, previous);
    StreamText(events, failure);
    PublicOutcome(chunks, lines, Deltas(events), parse, previous);
  }

  /** The exchange outcome of a stream whose frames give `pieces` and no id. */
  lemma PublicOutcome(chunks: seq<string>, lines: seq<string>, pieces: seq<string>, parse: Parser, previous: Value)
    requires lines == Complete(Concat(chunks))
    requires PublicClient.FramesPieces(lines, parse) == pieces
    requires PublicClient.FramesId(lines, parse, previous) == previous
    ensures PublicClient.Shown(Body(chunks, false), parse, previous)
         == (if pieces == [] then [] else [Message(Assistant, Concat(pieces))])
    ensures PublicClient.NextId(Body(chunks, false), parse, previous) == previous
  {
    assert PublicClient.ExchangeOutcome(Body(chunks, false), parse, previous)
        == PublicClient.Outcome(pieces, previous, false);
  }

  /** Delivered to the static widget, a run shows nothing at all. */
  lemma StaticShowsNothing(chunks: seq<string>, events: seq<StreamEvent>, failure: Option<string>, parse: Parser)
    requires Concat(chunks) == Wire(events, failure)
    requires Decodes(parse, StreamFrames(events, failure))
    ensures StaticClient.Shown(Body(chunks, false), parse) == []
  {
    WireFrames(events, failure);
    StaticFrames(StreamFrames(events, failure), parse);
  }
}
