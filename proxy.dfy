/**
 * The request handling of the chat proxy, `api/main.py`: the price nudge
 * applied to the user's message, the input guard and the choice of the
 * continuation id in `chat_endpoint`, the argument handling of the three
 * catalogue tools, and the loop of `event_stream` that turns the agent's
 * events into server-sent `data:` frames.
 *
 * The agent run is external: it is given as the sequence of events it
 * streams and, when it raises, the text of the exception raised after them.
 */
module Proxy {
  import opened Wrappers
  import opened Text
  import opened Json
  import opened Seqs

  // ---------------------------------------------------------------------------
  // The price nudge

  const PriceKeywords: seq<string> :=
    ["price", "cost", "how much", "affordable", "expensive", "budget", "value", "cheapest", "most expensive"]

  const PricePrefix := "[USER QUERY INVOLVES PRICE] "

  /** The lower-cased text contains one of the price keywords. */
  predicate MentionsPrice(text: string)
  {
    exists k :: 0 <= k < |PriceKeywords| && Contains(Lower(text), PriceKeywords[k])
  }

  /** `nudge_for_price`: price questions are marked for the agent. */
  function NudgeForPrice(text: string): string
  {
    if MentionsPrice(text) then PricePrefix + text else text
  }

  /**
   * The input is kept, with its case, at the end of the result; it is
   * changed exactly when it mentions a price, and then only by the marker
   * in front of it.
   */
  lemma NudgeKeepsInput(text: string)
    ensures var r := NudgeForPrice(text);
      |text| <= |r| && r[|r| - |text|..] == text && (r != text <==> MentionsPrice(text))
    ensures MentionsPrice(text) ==> NudgeForPrice(text) == PricePrefix + text
    ensures !MentionsPrice(text) ==> NudgeForPrice(text) == text
  {
    if MentionsPrice(text) {
      assert |NudgeForPrice(text)| == |PricePrefix| + |text|;
    }
  }

  /** The marker itself mentions a price: "PRICE" lower-cases to the keyword "price". */
  lemma PrefixMentionsPrice(text: string)
    ensures MentionsPrice(PricePrefix + text)
  {
    var low := Lower(PricePrefix + text);
    LowerAppend(PricePrefix, text);
    assert low[21] == LowerChar('P') == 'p';
    assert low[22] == LowerChar('R') == 'r';
    assert low[23] == LowerChar('I') == 'i';
    assert low[24] == LowerChar('C') == 'c';
    assert low[25] == LowerChar('E') == 'e';
    assert low[21..26] == PriceKeywords[0];
    assert OccursAt(low, PriceKeywords[0], 21);
  }

  /** Nudging is not idempotent: a marked message is marked again. */
  lemma NudgeTwice(text: string)
    requires MentionsPrice(text)
    ensures NudgeForPrice(NudgeForPrice(text)) == PricePrefix + PricePrefix + text
  {
    PrefixMentionsPrice(text);
  }

  /** The nudge neither creates nor removes a price mention. */
  lemma NudgeKeepsMention(text: string)
    ensures MentionsPrice(NudgeForPrice(text)) <==> MentionsPrice(text)
  {
    if MentionsPrice(text) {
      PrefixMentionsPrice(text);
    }
  }

  // ---------------------------------------------------------------------------
  // The chat endpoint

  /** What `chat_endpoint` answers. */
  datatype Reply =
    | ErrorReply(error: string)                        // the JSON body {"error": error}
    | Streamed(input: string, previousResponseId: Value) // a stream of the agent run on `input`

  const NoInputMessage := "No input provided"

  function InternalError(reason: string): string
  {
    "Internal server error: " + reason
  }

  /** The text of the `AttributeError` raised by reading `attribute` on `v`. */
  function NoAttribute(v: Value, attribute: string): string
  {
    "'" + PyTypeName(v) + "' object has no attribute '" + attribute + "'"
  }

  /** Python's `d.get(k, default)`. */
  function GetOr(d: map<string, Value>, k: string, default: Value): Value
  {
    if k in d then d[k] else default
  }

  /**
   * `data.get("previous_response_id") or previous_response_id`: the body's
   * id when truthy, otherwise the cookie (`None` when there is no cookie).
   */
  function ChoosePrevious(bodyId: Value, cookie: Option<string>): (r: Value)
    ensures PyTruthy(bodyId) ==> r == bodyId
    ensures !PyTruthy(bodyId) ==> (cookie.Some? <==> r.Str?) && (cookie.Some? ==> r.s == cookie.value)
    ensures !PyTruthy(bodyId) && cookie.None? ==> r == Null
  {
    if PyTruthy(bodyId) then bodyId
    else match cookie
      case Some(c) => Str(c)
      case None => Null
  }

  /** The body's `input` as `chat_endpoint` reads it: absent is the empty string. */
  function InputOf(d: map<string, Value>): Value
  {
    GetOr(d, "input", Str(""))
  }

  /**
   * `chat_endpoint` for a request whose body decoded to `body` (or failed to
   * decode with the given reason) and whose `previous_response_id` cookie is
   * `cookie`. Every exception raised before the stream starts becomes an
   * "Internal server error" reply.
   */
  function ChatEndpoint(body: Result<Value, string>, cookie: Option<string>): (r: Reply)
    ensures r.Streamed? <==> body.Ok? && body.value.Obj? && InputOf(body.value.fields).Str?
                              && InputOf(body.value.fields).s != ""
    ensures r.Streamed? ==>
      (r.input == NudgeForPrice(InputOf(body.value.fields).s)
       && r.previousResponseId == ChoosePrevious(PyGet(body.value.fields, "previous_response_id"), cookie))
    ensures r == ErrorReply(NoInputMessage) <==> body.Ok? && body.value.Obj? && !PyTruthy(InputOf(body.value.fields))
  {
    match body
    case Err(reason) => ErrorReply(InternalError(reason))
    case Ok(data) =>
      if !data.Obj? then ErrorReply(InternalError(NoAttribute(data, "get")))
      else
        var input := InputOf(data.fields);
        var previous := ChoosePrevious(PyGet(data.fields, "previous_response_id"), cookie);
        if !PyTruthy(input) then ErrorReply(NoInputMessage)
        else if !input.Str? then ErrorReply(InternalError(NoAttribute(input, "lower")))
        else Streamed(NudgeForPrice(input.s), previous)
  }

  /** An empty or missing input is refused before any nudging, whatever else the body holds. */
  lemma EmptyInputRefused(d: map<string, Value>, cookie: Option<string>)
    requires "input" !in d || d["input"] == Str("") || d["input"] == Null
    ensures ChatEndpoint(Ok(Obj(d)), cookie) == ErrorReply(NoInputMessage)
  {
  }

  /** A truthy id in the body wins over the cookie; otherwise the cookie is used. */
  lemma PreviousIdChoice(d: map<string, Value>, text: string, cookie: string)
    requires text != "" && d == map["input" := Str(text)]
    ensures ChatEndpoint(Ok(Obj(d["previous_response_id" := Str("resp_1")])), Some(cookie)).previousResponseId == Str("resp_1")
    ensures ChatEndpoint(Ok(Obj(d["previous_response_id" := Str("")])), Some(cookie)).previousResponseId == Str(cookie)
    ensures ChatEndpoint(Ok(Obj(d)), None).previousResponseId == Null
  {
  }

  // ---------------------------------------------------------------------------
  // Tool arguments

  /** A catalogue lookup as a tool wrapper calls it. */
  datatype ToolCall =
    | PriceLookup(productName: string)
    | FilterLookup(productType: Option<string>, condition: Option<string>,
                   minPrice: Option<int>, maxPrice: Option<int>, limit: Option<int>)
    | LatestLookup(days: int, limit: Option<int>)

  /**
   * The argument dictionary of a tool call: arguments written as JSON text
   * go through `json.loads` (`parse`), decoded ones are used as they are;
   * anything but a dictionary fails at `.get`.
   */
  function ToolArguments(args: Value, parse: string -> Result<Value, string>): (r: Result<map<string, Value>, string>)
    ensures args.Obj? ==> r == Ok(args.fields)
    ensures args.Str? && parse(args.s).Ok? && parse(args.s).value.Obj? ==> r == Ok(parse(args.s).value.fields)
    ensures args.Str? && parse(args.s).Err? ==> r == Err(parse(args.s).error)
    ensures args.Str? && parse(args.s).Ok? && !parse(args.s).value.Obj? ==> r.Err?
    ensures !args.Str? && !args.Obj? ==> r.Err?
  {
    match args
    case Str(text) =>
      (match parse(text)
       case Err(reason) => Err(reason)
       case Ok(decoded) => if decoded.Obj? then Ok(decoded.fields) else Err(NoAttribute(decoded, "get")))
    case Obj(d) => Ok(d)
    case other => Err(NoAttribute(other, "get"))
  }

  /** An optional text argument: `None` stays absent. */
  function OptionalText(v: Value): Result<Option<string>, string>
  {
    match v
    case Null => Ok(None)
    case Str(s) => Ok(Some(s))
    case other => Err("unsupported argument type " + PyTypeName(other))
  }

  /** An optional numeric argument: `None` stays absent. */
  function OptionalNumber(v: Value): Result<Option<int>, string>
  {
    match v
    case Null => Ok(None)
    case Num(n) => Ok(Some(n))
    case other => Err("unsupported argument type " + PyTypeName(other))
  }

  /** `async_get_product_prices`: the name goes to `re.sub`, which needs a string. */
  function PriceToolCall(args: Value, parse: string -> Result<Value, string>): Result<ToolCall, string>
  {
    match ToolArguments(args, parse)
    case Err(reason) => Err(reason)
    case Ok(d) =>
      match PyGet(d, "product_name")
      case Str(name) => Ok(PriceLookup(name))
      case other => Err("expected string or bytes-like object, got '" + PyTypeName(other) + "'")
  }

  /** `async_filter_products`: missing criteria are `None`, a missing `limit` is 3. */
  function FilterToolCall(args: Value, parse: string -> Result<Value, string>): Result<ToolCall, string>
  {
    match ToolArguments(args, parse)
    case Err(reason) => Err(reason)
    case Ok(d) =>
      match (OptionalText(PyGet(d, "product_type")), OptionalText(PyGet(d, "condition")),
             OptionalNumber(PyGet(d, "min_price")), OptionalNumber(PyGet(d, "max_price")),
             OptionalNumber(GetOr(d, "limit", Num(3))))
      case (Ok(t), Ok(c), Ok(lo), Ok(hi), Ok(limit)) => Ok(FilterLookup(t, c, lo, hi, limit))
      case (Err(e), _, _, _, _) => Err(e)
      case (_, Err(e), _, _, _) => Err(e)
      case (_, _, Err(e), _, _) => Err(e)
      case (_, _, _, Err(e), _) => Err(e)
      case (_, _, _, _, Err(e)) => Err(e)
  }

  /** `async_get_latest_products`: a missing `days` is 14 and a missing `limit` is 3. */
  function LatestToolCall(args: Value, parse: string -> Result<Value, string>): Result<ToolCall, string>
  {
    match ToolArguments(args, parse)
    case Err(reason) => Err(reason)
    case Ok(d) =>
      var days := match GetOr(d, "days", Num(14))
        case Num(n) => Ok(n)
        case Bool(b) => Ok(if b then 1 else 0)
        case other => Err("unsupported type for timedelta days component: " + PyTypeName(other));
      match (days, OptionalNumber(GetOr(d, "limit", Num(3))))
      case (Ok(n), Ok(limit)) => Ok(LatestLookup(n, limit))
      case (Err(e), _) => Err(e)
      case (_, Err(e)) => Err(e)
  }

  /** A price lookup without a name fails: `re.sub` is given `None`. */
  lemma PriceNeedsName(d: map<string, Value>, parse: string -> Result<Value, string>)
    requires "product_name" !in d
    ensures PriceToolCall(Obj(d), parse).Err?
  {
    assert ToolArguments(Obj(d), parse) == Ok(d);
  }

  /** A string name reaches the price lookup as it is; any other value fails. */
  lemma PriceForwards(d: map<string, Value>, parse: string -> Result<Value, string>)
    ensures PyGet(d, "product_name").Str? ==>
      PriceToolCall(Obj(d), parse) == Ok(PriceLookup(PyGet(d, "product_name").s))
    ensures !PyGet(d, "product_name").Str? ==> PriceToolCall(Obj(d), parse).Err?
  {
    assert ToolArguments(Obj(d), parse) == Ok(d);
  }

  /** An argument that is `None` or of its expected type. */
  predicate TextOrNone(v: Value)
  {
    v.Null? || v.Str?
  }

  predicate NumberOrNone(v: Value)
  {
    v.Null? || v.Num?
  }

  /**
   * `async_filter_products` goes ahead exactly when each argument is `None`
   * or of its type, and then passes every given argument on as it is.
   */
  lemma FilterForwards(d: map<string, Value>, parse: string -> Result<Value, string>)
    ensures FilterToolCall(Obj(d), parse).Ok? <==>
      && TextOrNone(PyGet(d, "product_type")) && TextOrNone(PyGet(d, "condition"))
      && NumberOrNone(PyGet(d, "min_price")) && NumberOrNone(PyGet(d, "max_price"))
      && NumberOrNone(GetOr(d, "limit", Num(3)))
    ensures FilterToolCall(Obj(d), parse).Ok? ==>
      var c := FilterToolCall(Obj(d), parse).value;
      && (PyGet(d, "product_type").Str? ==> c.productType == Some(PyGet(d, "product_type").s))
      && (PyGet(d, "condition").Str? ==> c.condition == Some(PyGet(d, "condition").s))
      && (PyGet(d, "min_price").Num? ==> c.minPrice == Some(PyGet(d, "min_price").n))
      && (PyGet(d, "max_price").Num? ==> c.maxPrice == Some(PyGet(d, "max_price").n))
      && (GetOr(d, "limit", Num(3)).Num? ==> c.limit == Some(GetOr(d, "limit", Num(3)).n))
  {
    assert ToolArguments(Obj(d), parse) == Ok(d);
  }

  /**
   * `async_get_latest_products` passes a given `days` on (a boolean as 0 or
   * 1, as `timedelta` reads it) and a given `limit` as it is.
   */
  lemma LatestForwards(d: map<string, Value>, parse: string -> Result<Value, string>)
    ensures LatestToolCall(Obj(d), parse).Ok? <==>
      (GetOr(d, "days", Num(14)).Num? || GetOr(d, "days", Num(14)).Bool?) && NumberOrNone(GetOr(d, "limit", Num(3)))
    ensures LatestToolCall(Obj(d), parse).Ok? ==>
      var c := LatestToolCall(Obj(d), parse).value;
      && (GetOr(d, "days", Num(14)).Num? ==> c.days == GetOr(d, "days", Num(14)).n)
      && (GetOr(d, "days", Num(14)).Bool? ==> c.days == (if GetOr(d, "days", Num(14)).b then 1 else 0))
      && (GetOr(d, "limit", Num(3)).Num? ==> c.limit == Some(GetOr(d, "limit", Num(3)).n))
      && (GetOr(d, "limit", Num(3)).Null? ==> c.limit == None)
  {
    assert ToolArguments(Obj(d), parse) == Ok(d);
  }

  /** Two dictionaries that agree on the lookups of `async_filter_products` give the same call. */
  lemma FilterSameLookups(d: map<string, Value>, e: map<string, Value>, parse: string -> Result<Value, string>)
    requires PyGet(d, "product_type") == PyGet(e, "product_type")
    requires PyGet(d, "condition") == PyGet(e, "condition")
    requires PyGet(d, "min_price") == PyGet(e, "min_price")
    requires PyGet(d, "max_price") == PyGet(e, "max_price")
    requires GetOr(d, "limit", Num(3)) == GetOr(e, "limit", Num(3))
    ensures FilterToolCall(Obj(d), parse) == FilterToolCall(Obj(e), parse)
  {
    assert ToolArguments(Obj(d), parse) == Ok(d);
    assert ToolArguments(Obj(e), parse) == Ok(e);
  }

  /** Two dictionaries that agree on the lookups of `async_get_latest_products` give the same call. */
  lemma LatestSameLookups(d: map<string, Value>, e: map<string, Value>, parse: string -> Result<Value, string>)
    requires GetOr(d, "days", Num(14)) == GetOr(e, "days", Num(14))
    requires GetOr(d, "limit", Num(3)) == GetOr(e, "limit", Num(3))
    ensures LatestToolCall(Obj(d), parse) == LatestToolCall(Obj(e), parse)
  {
    assert ToolArguments(Obj(d), parse) == Ok(d);
    assert ToolArguments(Obj(e), parse) == Ok(e);
  }

  /**
   * The defaults of `async_filter_products`, for any argument dictionary: a
   * missing criterion behaves as `None` given explicitly, and a missing
   * `limit` as 3 given explicitly.
   */
  lemma FilterDefaults(d: map<string, Value>, parse: string -> Result<Value, string>)
    ensures "product_type" !in d ==> FilterToolCall(Obj(d), parse) == FilterToolCall(Obj(d["product_type" := Null]), parse)
    ensures "condition" !in d ==> FilterToolCall(Obj(d), parse) == FilterToolCall(Obj(d["condition" := Null]), parse)
    ensures "min_price" !in d ==> FilterToolCall(Obj(d), parse) == FilterToolCall(Obj(d["min_price" := Null]), parse)
    ensures "max_price" !in d ==> FilterToolCall(Obj(d), parse) == FilterToolCall(Obj(d["max_price" := Null]), parse)
    ensures "limit" !in d ==> FilterToolCall(Obj(d), parse) == FilterToolCall(Obj(d["limit" := Num(3)]), parse)
  {
    if "product_type" !in d {
      FilterSameLookups(d, d["product_type" := Null], parse);
    }
    if "condition" !in d {
      FilterSameLookups(d, d["condition" := Null], parse);
    }
    if "min_price" !in d {
      FilterSameLookups(d, d["min_price" := Null], parse);
    }
    if "max_price" !in d {
      FilterSameLookups(d, d["max_price" := Null], parse);
    }
    if "limit" !in d {
      FilterSameLookups(d, d["limit" := Num(3)], parse);
    }
  }

  /** What the missing filter arguments become in a call that goes ahead. */
  lemma FilterDefaultValues(d: map<string, Value>, parse: string -> Result<Value, string>)
    requires FilterToolCall(Obj(d), parse).Ok?
    ensures var c := FilterToolCall(Obj(d), parse).value;
      && ("product_type" !in d ==> c.productType == None)
      && ("condition" !in d ==> c.condition == None)
      && ("min_price" !in d ==> c.minPrice == None)
      && ("max_price" !in d ==> c.maxPrice == None)
      && ("limit" !in d ==> c.limit == Some(3))
  {
    assert ToolArguments(Obj(d), parse) == Ok(d);
  }

  /**
   * The defaults of `async_get_latest_products`, for any argument
   * dictionary: a missing `days` behaves as 14 and a missing `limit` as 3,
   * and a call that goes ahead carries those values.
   */
  lemma LatestDefaults(d: map<string, Value>, parse: string -> Result<Value, string>)
    ensures "days" !in d ==> LatestToolCall(Obj(d), parse) == LatestToolCall(Obj(d["days" := Num(14)]), parse)
    ensures "limit" !in d ==> LatestToolCall(Obj(d), parse) == LatestToolCall(Obj(d["limit" := Num(3)]), parse)
    ensures LatestToolCall(Obj(d), parse).Ok? ==>
      && ("days" !in d ==> LatestToolCall(Obj(d), parse).value.days == 14)
      && ("limit" !in d ==> LatestToolCall(Obj(d), parse).value.limit == Some(3))
  {
    assert ToolArguments(Obj(d), parse) == Ok(d);
    if "days" !in d {
      LatestSameLookups(d, d["days" := Num(14)], parse);
    }
    if "limit" !in d {
      LatestSameLookups(d, d["limit" := Num(3)], parse);
    }
  }

  /** A call with no arguments at all takes every default. */
  lemma ToolDefaults(parse: string -> Result<Value, string>)
    ensures FilterToolCall(Obj(map[]), parse) == Ok(FilterLookup(None, None, None, None, Some(3)))
    ensures LatestToolCall(Obj(map[]), parse) == Ok(LatestLookup(14, Some(3)))
    ensures PriceToolCall(Obj(map[]), parse).Err?
  {
  }

  /**
   * A `limit` given as `null` is not the default: it reaches the request as
   * `None`, and the request then leaves `maxRecords` out.
   */
  lemma ExplicitNullLimit(parse: string -> Result<Value, string>)
    ensures FilterToolCall(Obj(map["limit" := Null]), parse) == Ok(FilterLookup(None, None, None, None, None))
  {
    var d := map["limit" := Null];
    assert GetOr(d, "limit", Num(3)) == Null;
  }

  /** Arguments written as JSON text are handled exactly as the dictionary they decode to. */
  lemma ToolArgumentForms(text: string, d: map<string, Value>, parse: string -> Result<Value, string>)
    requires parse(text) == Ok(Obj(d))
    ensures PriceToolCall(Str(text), parse) == PriceToolCall(Obj(d), parse)
    ensures FilterToolCall(Str(text), parse) == FilterToolCall(Obj(d), parse)
    ensures LatestToolCall(Str(text), parse) == LatestToolCall(Obj(d), parse)
  {
    assert ToolArguments(Str(text), parse) == Ok(d);
  }

  // ---------------------------------------------------------------------------
  // The event stream

  /** The payload of a raw response event. */
  datatype RawData = TextDelta(delta: string) | OtherRawData

  /** The events the agent run streams. */
  datatype StreamEvent =
    | RawResponse(data: RawData)
    | RunItem(itemType: string)
    | AgentUpdated(agentName: string)

  /** What the proxy sends: a text delta, or the single error of a failed run. */
  datatype Frame = DeltaFrame(delta: string) | ErrorFrame(message: string)

  /** The text one event contributes: a non-empty text delta, and nothing otherwise. */
  function DeltaOf(e: StreamEvent): (r: seq<string>)
    ensures |r| <= 1 && forall i :: 0 <= i < |r| ==> r[i] != ""
  {
    if e.RawResponse? && e.data.TextDelta? && e.data.delta != "" then [e.data.delta] else []
  }

  /** The non-empty text deltas of `events`, in arrival order. */
  function Deltas(events: seq<StreamEvent>): (r: seq<string>)
    ensures |r| <= |events|
    ensures forall i :: 0 <= i < |r| ==> r[i] != ""
    decreases |events|
  {
    if events == [] then []
    else Deltas(events[..|events| - 1]) + DeltaOf(events[|events| - 1])
  }

  /** The deltas of a stream are those of its parts, one after the other. */
  lemma {:induction false} DeltasAppend(a: seq<StreamEvent>, b: seq<StreamEvent>)
    ensures Deltas(a + b) == Deltas(a) + Deltas(b)
    decreases |b|
  {
    if b == [] {
      assert a + b == a;
    } else {
      var last := b[|b| - 1];
      assert (a + b)[..|a + b| - 1] == a + b[..|b| - 1];
      DeltasAppend(a, b[..|b| - 1]);
    }
  }

  lemma DeltasSingle(e: StreamEvent)
    ensures Deltas([e]) == DeltaOf(e)
  {
    assert [e][..0] == [];
  }

  /** Run-item events, agent updates, other raw data and empty deltas are dropped. */
  lemma DeltasSkip(a: seq<StreamEvent>, e: StreamEvent, b: seq<StreamEvent>)
    requires !(e.RawResponse? && e.data.TextDelta? && e.data.delta != "")
    ensures Deltas(a + [e] + b) == Deltas(a + b)
  {
    DeltasAppend(a + [e], b);
    DeltasAppend(a, [e]);
    DeltasAppend(a, b);
    DeltasSingle(e);
    assert Deltas(a + [e]) == Deltas(a);
  }

  /** A non-empty text delta becomes exactly one delta. */
  lemma DeltasKeep(a: seq<StreamEvent>, d: string, b: seq<StreamEvent>)
    requires d != ""
    ensures Deltas(a + [RawResponse(TextDelta(d))] + b) == Deltas(a) + [d] + Deltas(b)
  {
    var e := RawResponse(TextDelta(d));
    DeltasAppend(a + [e], b);
    DeltasAppend(a, [e]);
    DeltasSingle(e);
  }

  /** One delta frame per delta, in order. */
  function DeltaFrames(ds: seq<string>): (r: seq<Frame>)
    ensures |r| == |ds| && forall i :: 0 <= i < |ds| ==> r[i] == DeltaFrame(ds[i])
  {
    seq(|ds|, i requires 0 <= i < |ds| => DeltaFrame(ds[i]))
  }

  /**
   * The frames of a run that streamed `events` and then raised `failure`,
   * if it did: the delta frames, then the one error frame.
   */
  function StreamFrames(events: seq<StreamEvent>, failure: Option<string>): seq<Frame>
  {
    DeltaFrames(Deltas(events)) + (if failure.Some? then [ErrorFrame(failure.value)] else [])
  }

  /**
   * The frames are delta frames except possibly the last, which is the error
   * frame exactly when the run failed; there is no completion frame and no
   * frame carrying a response id.
   */
  lemma StreamFramesShape(events: seq<StreamEvent>, failure: Option<string>)
    ensures var frames := StreamFrames(events, failure);
      && |frames| == |Deltas(events)| + (if failure.Some? then 1 else 0)
      && (forall i :: 0 <= i < |Deltas(events)| ==> frames[i] == DeltaFrame(Deltas(events)[i]))
      && (failure.Some? <==> frames != [] && frames[|frames| - 1].ErrorFrame?)
      && (failure.Some? ==> frames[|frames| - 1] == ErrorFrame(failure.value))
  {
  }

  /**
   * The loop of `event_stream`: one frame per non-empty text delta, in
   * arrival order, then the error frame if the run raised. The response id
   * it keeps for the cookie is never assigned.
   */
  method EventStream(events: seq<StreamEvent>, failure: Option<string>)
    returns (frames: seq<Frame>, newResponseId: Option<string>)
    ensures frames == StreamFrames(events, failure)
    ensures newResponseId == None && !SetsCookie(newResponseId)
  {
    frames := [];
    newResponseId := None;
    for i := 0 to |events|
      invariant frames == DeltaFrames(Deltas(events[..i]))
    {
      assert events[..i + 1][..i] == events[..i];
      match events[i]
      case RawResponse(data) =>
        if data.TextDelta? && data.delta != "" {
          frames := frames + [DeltaFrame(data.delta)];
        }
      case RunItem(_) =>
      case AgentUpdated(_) =>
    }
    assert events[..|events|] == events;
    if failure.Some? {
      frames := frames + [ErrorFrame(failure.value)];
    }
  }

  /** The cookie wrapper sets a cookie only for a truthy response id: never, as the id stays `None`. */
  predicate SetsCookie(newResponseId: Option<string>)
  {
    newResponseId.Some? && newResponseId.value != ""
  }

  // ---------------------------------------------------------------------------
  // The wire form

  const DeltaHead := "{\"event\": \"thread.message.delta\", "
                   + "\"data\": {\"delta\": {\"content\": "
                   + "[{\"type\": \"text\", \"text\": {\"value\": "
  const DeltaTail := " } }] } } }"
  const ErrorHead := "{\"event\": \"error\", \"data\": {\"error\": "
  const ErrorTail := " } }"

  /** The JSON text after `data: `, with the delta or the error as an escaped JSON string. */
  function Payload(f: Frame): string
  {
    match f
    case DeltaFrame(d) => DeltaHead + EncodeString(d) + DeltaTail
    case ErrorFrame(m) => ErrorHead + EncodeString(m) + ErrorTail
  }

  /** A frame without its terminator. */
  function EventLine(f: Frame): string
  {
    "data: " + Payload(f)
  }

  /** The lines of `frames`, in order. */
  function EventLines(frames: seq<Frame>): seq<string>
  {
    Map(frames, EventLine)
  }

  /** There is one line per frame, the line of the frame at the same place. */
  lemma EventLinesOneEach(frames: seq<Frame>)
    ensures |EventLines(frames)| == |frames|
    ensures forall i :: 0 <= i < |frames| ==> EventLines(frames)[i] == EventLine(frames[i])
  {
    MapAt(frames, EventLine);
  }

  lemma DeltaHeadNoBreak()
    ensures '\n' !in DeltaHead
  {
  }

  lemma FixedTextNoBreak()
    ensures '\n' !in "data: " && '\n' !in DeltaTail && '\n' !in ErrorHead && '\n' !in ErrorTail
  {
  }

  /**
   * No frame contains a line feed before its terminator, because the text in
   * it is escaped as a JSON string (printable ASCII only): so its "\n\n" is
   * the first one after its start.
   */
  lemma EventLineNoBreak(f: Frame)
    ensures '\n' !in EventLine(f)
  {
    var text := if f.DeltaFrame? then f.delta else f.message;
    var encoded := EncodeString(text);
    assert '\n' !in encoded by {
      forall i | 0 <= i < |encoded| ensures encoded[i] != '\n' {
        assert ' ' <= encoded[i] <= '~';
      }
    }
    DeltaHeadNoBreak();
    FixedTextNoBreak();
  }

  /**
   * A JSON reader finds the delta again: at the value position of a delta
   * payload stands a string literal that decodes to exactly the delta, and
   * the closing brackets follow it.
   */
  lemma DeltaPayloadCarriesDelta(d: string)
    ensures var p := Payload(DeltaFrame(d));
      var n := |DeltaHead|;
      n <= |p| && p[..n] == DeltaHead
      && ParseString(p[n..]) == Some((d, |EncodeString(d)|))
      && p[n + |EncodeString(d)|..] == DeltaTail
  {
    assert Payload(DeltaFrame(d)) == DeltaHead + EncodeString(d) + DeltaTail;
    ThreeParts(DeltaHead, EncodeString(d), DeltaTail);
    EncodeStringRoundTrip(d, DeltaTail);
  }

  /** Likewise, the error payload carries the error text. */
  lemma ErrorPayloadCarriesMessage(m: string)
    ensures var p := Payload(ErrorFrame(m));
      var n := |ErrorHead|;
      n <= |p| && p[..n] == ErrorHead
      && ParseString(p[n..]) == Some((m, |EncodeString(m)|))
      && p[n + |EncodeString(m)|..] == ErrorTail
  {
    assert Payload(ErrorFrame(m)) == ErrorHead + EncodeString(m) + ErrorTail;
    ThreeParts(ErrorHead, EncodeString(m), ErrorTail);
    EncodeStringRoundTrip(m, ErrorTail);
  }
}
