/**
 * What the two browser widgets share: how a frame's payload is decoded, the
 * messages the page shows, and the ways a request can go.
 */
module Widget {
  import opened Wrappers
  import opened Text
  import opened Json

  /** `JSON.parse`: the decoded value, or `None` when it throws. */
  type Parser = string -> Option<Value>

  /** The decoded payload of a frame: only `data: ` frames are read, and text that does not parse is skipped. */
  function FrameValue(frame: string, parse: Parser): Option<Value>
  {
    if StartsWith(frame, "data: ") then parse(frame[6..]) else None
  }

  datatype Role = User | Assistant

  datatype Message = Message(role: Role, text: string)

  const SorryText := "Sorry, there was an error."

  /**
   * How the request went: `fetch` rejected, the response had no body, or the
   * body delivered `chunks` (already decoded) and then ended, or then failed
   * to read when `readFails`.
   */
  datatype Exchange =
    | FetchFailed
    | NoBody
    | Body(chunks: seq<string>, readFails: bool)

  /**
   * The assistant messages a request adds after the user's: the bubble, when
   * some text arrived, holding all of it; then the apology, when the request
   * failed.
   */
  function AssistantMessages(pieces: seq<string>, failed: bool): seq<Message>
  {
    (if pieces != [] then [Message(Assistant, Concat(pieces))] else [])
    + (if failed then [Message(Assistant, SorryText)] else [])
  }
}
