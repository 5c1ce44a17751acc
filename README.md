# Chat proxy and widgets, modelled in Dafny

This project models the parts of a small product-catalogue chatbot that can
be stated and proved on their own. The chatbot has four such parts:

- **The catalogue tools** (`api/airtable_tools.py`). They clean a product
  name, build Airtable `filterByFormula` strings, turn the returned records
  into fixed-key product dictionaries, and render products as Markdown.
- **The chat proxy** (`api/main.py`). It nudges price questions, refuses an
  empty input, and chooses the previous-response id. It fills in the tool
  wrappers' defaults. It re-encodes the agent's text deltas as server-sent
  `data: {...}\n\n` frames, and ends a failed run with one error frame.
- **The public widget** (`public/chatbot.js`). It reads the stream chunk by
  chunk, cuts it into frames at `"\n\n"`, and appends the text of delta frames.
  It keeps `previous_response_id` and `session` between messages.
- **The older static widget** (`static/chatbot.js`). It runs the same read
  loop over a different event shape and keeps no conversation state.

Modules, one per file:

- `Wrappers`: `Option` and `Result`.
- `Seqs`: generic sequence helpers: the folds `Collect` and `LastOf` that
  the widgets use, `Map` and `All`, and the lemmas relating them.
- `Text`: ASCII lower-casing, Python and JavaScript trimming, joining,
  counting and decimal numerals.
- `Json`: JSON values, with Python and JavaScript truthiness and property
  access. It also has `json.dumps` string escaping (RFC 8259, section 7,
  with `ensure_ascii`) and a string decoder that inverts it.
- `Frames`: JavaScript's `split('\n\n')`, with the complete frames and the
  pending buffer it yields. This is the bare `"\n\n"` subset of the
  event-stream format of the WHATWG HTML Standard, section 9.2.
- `Catalog`: `api/airtable_tools.py`.
- `Proxy`: `api/main.py`.
- `Widget`: what both widgets share.
- `PublicClient`: `public/chatbot.js`.
- `StaticClient`: `static/chatbot.js`.
- `Delivery`: the proxy's stream read by each widget, end to end.

The HTTP request of `fetch_products` is a parameter: a function from the
formula and the record cap to the rows, or to the reason the request failed.
The agent run is a sequence of abstract events plus an optional exception.
`JSON.parse` and `json.loads` are parameters. `generateUUID` is a fresh-id
parameter. A widget's HTTP exchange is given as its outcome:
- `fetch` rejected;
- there was no body;
- or these chunks arrived, and then the body ended or failed.

The interpolation of the cleaned name and the filter values between single
quotes is modelled exactly as written, with no escaping. `QuotingIsExact`
and the lemmas built on it state when a value survives as one Airtable
string literal: exactly when it holds no `'`.

## Model

| member | source | states |
|---|---|---|
| Catalog.StripGroups | api/airtable_tools.py:28 | The substitution that deletes every bracketed group with the whitespace before it, scanning from the left. Its properties are the four lemmas that follow. |
| Catalog.StripGroupsDeletesGroup | api/airtable_tools.py:28 | After a prefix with no `(` that does not end in whitespace, a group `ws + "(" + inner + ")"` is deleted together with the whitespace before it. `inner` holds no `)`. |
| Catalog.StripGroupsWithoutGroup | api/airtable_tools.py:28 | Text with no `(` followed later by `)` is left unchanged by the substitution. |
| Catalog.StripGroupsLeavesNoGroup | api/airtable_tools.py:28 | After the substitution, no `(` is followed later by a `)`. |
| Catalog.StripGroupsKeepsOut | api/airtable_tools.py:28 | The substitution only deletes: a character absent from the input is absent from the output. |
| Catalog.CleanName | api/airtable_tools.py:27-28 | The substitution, then Python's `strip`. Its properties are CleanSizedName, CleanNameHasNoGroup and CleanNameIdempotent. |
| Catalog.CleanSizedName | api/airtable_tools.py:27-28 | A name with no `(` and no surrounding whitespace, followed by one bracketed size, cleans to that name. |
| Catalog.CleanNameExample | api/airtable_tools.py:27-28 | `"Relief Oil (30ml)"` cleans to `"Relief Oil"`. |
| Catalog.CleanNameHasNoGroup | api/airtable_tools.py:28 | A cleaned name contains no `(` followed later by `)`. |
| Catalog.CleanNameIdempotent | api/airtable_tools.py:28 | Cleaning a cleaned name changes nothing. |
| Catalog.CleanNameWithQuote | api/airtable_tools.py:28 | A quote survives cleaning: `"O'Brien Oil (10ml)"` cleans to `"O'Brien Oil"`. |
| Catalog.QuotingIsExact | api/airtable_tools.py:30 | A value interpolated after `'` and before a `'` gives the literal that runs to its own first quote. That literal is the whole value iff the value holds no `'`. |
| Catalog.PriceFormula | api/airtable_tools.py:30 | The cleaned name inside a case-insensitive `SEARCH`. PriceFormulaQuoting states when the name survives as one literal. |
| Catalog.PriceFormulaQuoting | api/airtable_tools.py:30 | The price formula's literal is the cleaned name iff the cleaned name holds no `'`. |
| Catalog.PriceFormulaInjectionExample | api/airtable_tools.py:30 | For `"O'Brien Oil (10ml)"` the formula's literal is just `"O"`, and the rest of the name becomes formula text. |
| Catalog.FilterClauses | api/airtable_tools.py:47-55 | There is one clause per given criterion, in the order type, condition, min, max. |
| Catalog.CollectFilterClauses | api/airtable_tools.py:47-55 | Appending one clause per given criterion leaves exactly `FilterClauses`. |
| Catalog.BuildFilterFormula | api/airtable_tools.py:47-56 | The formula is `""` exactly when no criterion is given. Otherwise it is `"AND("` + the clauses joined by `","` + `")"`. |
| Catalog.FilterCriteriaPresence | api/airtable_tools.py:48-55 | An empty type counts as absent, while a price of 0 counts as present. |
| Catalog.FilterQuoting | api/airtable_tools.py:49-51 | The type and condition literals are the given values iff the values hold no `'`. |
| Catalog.FormatTimestamp | api/airtable_tools.py:73 | `%Y-%m-%dT%H:%M:%S.000Z` of a valid time is 24 characters with no `'`. |
| Catalog.RecencyFormula | api/airtable_tools.py:74 | `since` compared with both the created and the last-modified date. See the two lemmas that follow. |
| Catalog.RecencyFormulaQuoting | api/airtable_tools.py:74 | Both `IS_AFTER` literals are `since` iff `since` holds no `'`. |
| Catalog.RecencyFormulaComparesBoth | api/airtable_tools.py:73-74 | For a formatted time, both the `Created` and the `Last Modified` comparison read exactly that time. |
| Catalog.FieldsOf | api/airtable_tools.py:34 | A row's fields are read iff the row is a dictionary whose `fields`, when present, is one. A missing `fields` gives no fields. Anything else raises `AttributeError`. |
| Catalog.ProductOf | api/airtable_tools.py:77-87 | A product has exactly the five keys, plus `created` and `last_modified` for the recency lookup. Each value is the field's value, or `None` when the field is absent. |
| Catalog.NormaliseRows | api/airtable_tools.py:58-67 | On success there is one product per row, in row order. Otherwise the result is the error of the first row whose `fields` is not a dictionary. |
| Catalog.GetProductPrices | api/airtable_tools.py:25-42 | The lookup fetches the price formula of the cleaned name with `maxRecords` 5 and normalises the rows. A failed request is an error. |
| Catalog.FilterProducts | api/airtable_tools.py:45-68 | The lookup fetches the filter formula with `maxRecords` = `limit` and normalises the rows. |
| Catalog.GetLatestProducts | api/airtable_tools.py:71-88 | The lookup fetches the recency formula of the formatted `since` time with `maxRecords` = `limit`, and adds the two date fields. |
| Catalog.FormatProduct | api/airtable_tools.py:91-93 | The bold name line, a line feed, then the details line. See FormatProductStartsWithName, FormatProductOneBreak, FormatProductWithoutName and DetailsWithoutKeys. |
| Catalog.FormatProducts | api/airtable_tools.py:96-99 | "No products found." or the blocks joined by line feeds. See FormatProductsEmptyIff, FormatProductsLineByLine, ProductLinesNoBreak and FormatProductsLines. |
| Catalog.FormatProductsLineByLine | api/airtable_tools.py:96-99 | For a non-empty list, the text is these lines joined by line feeds: product k's name line at position 2k and its details line at 2k+1, in order. |
| Catalog.ProductLinesNoBreak | api/airtable_tools.py:93 | When `show` writes no line feed, none of those lines holds one, so they are exactly the text's lines. |
| Catalog.DetailsWithoutKeys | api/airtable_tools.py:93 | A dictionary without any of the four detail keys shows `- SKU: -, Quantity: -, Price: -, Unit: -`. |
| Catalog.FormatProductStartsWithName | api/airtable_tools.py:93 | A product's block opens with its bold name line. |
| Catalog.FormatProductOneBreak | api/airtable_tools.py:93 | A block has exactly one line break when no shown value has one. |
| Catalog.FormatProductsEmptyIff | api/airtable_tools.py:96-99 | The text is `"No products found."` exactly for no products. Otherwise it opens with the first product's name line. |
| Catalog.FormatProductsLines | api/airtable_tools.py:96-99 | n products give 2n−1 line breaks: one block each, joined by `"\n"`. |
| Catalog.FormatProductWithoutName | api/airtable_tools.py:93 | A product without the name key shows `**Unknown Product**`. |
| Catalog.FormatNormalisedWithoutName | api/airtable_tools.py:93 | A normalised product always has the name key, so a missing name field shows `None`, never the default. |
| Proxy.NudgeForPrice | api/main.py:193-198 | `nudge_for_price`: the marker is put in front when a keyword occurs in the lower-cased text. Its properties are the four lemmas that follow. |
| Proxy.NudgeKeepsInput | api/main.py:193-198 | The input stays at the end of the result, with its case. The result is `PricePrefix` + the input when a keyword occurs in its lower-case form, and the input unchanged otherwise. |
| Proxy.PrefixMentionsPrice | api/main.py:197 | The prefix itself lower-cases to a text holding `price`. |
| Proxy.NudgeTwice | api/main.py:193-198 | Nudging a price question twice prefixes it twice, so nudging is not idempotent. |
| Proxy.NudgeKeepsMention | api/main.py:193-198 | The nudged text mentions a price iff the input does. |
| Proxy.ChoosePrevious | api/main.py:206 | The body's id is used when truthy. Otherwise the cookie is used, or `None` without a cookie. |
| Proxy.ChatEndpoint | api/main.py:200-255 | A stream starts iff the body is a dictionary whose `input` is a non-empty string. It streams the nudged input with the chosen id. A falsy input is answered `No input provided`. |
| Proxy.ToolArguments | api/main.py:57-59 | A dictionary is taken as is. A string is decoded first: a decoded dictionary is used, a decoding error is passed on, and any other decoded value fails. Anything else that is not a dictionary fails. |
| Proxy.PriceToolCall | api/main.py:57-64 | `async_get_product_prices`: the name is looked up and must be a string. Its properties are PriceForwards, PriceNeedsName and ToolArgumentForms. |
| Proxy.FilterToolCall | api/main.py:66-75 | `async_filter_products`: the criteria are looked up, with `limit` defaulting to 3. Its properties are FilterForwards, FilterDefaults, FilterDefaultValues, ExplicitNullLimit and ToolArgumentForms. |
| Proxy.LatestToolCall | api/main.py:77-83 | `async_get_latest_products`: `days` defaults to 14 and `limit` to 3. Its properties are LatestForwards, LatestDefaults and ToolArgumentForms. |
| Proxy.PriceForwards | api/main.py:60-62 | For every argument dictionary, a string `product_name` reaches the price lookup unchanged, and any other value fails. |
| Proxy.FilterForwards | api/main.py:66-75 | For every argument dictionary, the filter call goes ahead iff each argument is `None` or of its type. It then passes every given text criterion, price and `limit` on unchanged. |
| Proxy.LatestForwards | api/main.py:77-83 | For every argument dictionary, the recency call goes ahead iff `days` is a number or a boolean and `limit` is a number or `None`. A given `days` is passed on (a boolean as 1 or 0), and a given `limit` is passed on unchanged. |
| Proxy.PriceNeedsName | api/main.py:60-62 | For every argument dictionary without `product_name`, the price lookup fails. |
| Proxy.FilterSameLookups | api/main.py:66-75 | Two argument dictionaries that agree on the five lookups give the same filter call. |
| Proxy.FilterDefaults | api/main.py:70-74 | For every argument dictionary, a missing criterion behaves as an explicit `None`, and a missing `limit` as an explicit 3. |
| Proxy.FilterDefaultValues | api/main.py:70-74 | In every filter call that goes ahead, a missing criterion is `None` and a missing `limit` is 3. |
| Proxy.LatestSameLookups | api/main.py:77-83 | Two argument dictionaries that agree on the `days` and `limit` lookups give the same recency call. |
| Proxy.LatestDefaults | api/main.py:80-83 | For every argument dictionary, a missing `days` behaves as 14 and a missing `limit` as 3. A call that goes ahead carries those values. |
| Proxy.ToolDefaults | api/main.py:66-83 | A call with no arguments takes every default, and the price lookup then fails. |
| Proxy.ExplicitNullLimit | api/main.py:74 | An explicit `"limit": null` is passed on as `None`, not replaced by 3. |
| Proxy.ToolArgumentForms | api/main.py:57-83 | A JSON string and the dictionary it decodes to give the same lookup. |
| Proxy.Deltas | api/main.py:219-225 | Only non-empty deltas are kept, at most one per event. |
| Proxy.DeltasAppend | api/main.py:219-225 | The deltas of a stream are those of its parts, in order. |
| Proxy.DeltasSkip | api/main.py:221-236 | Run-item events, agent updates, other raw data and empty deltas emit nothing. |
| Proxy.DeltasKeep | api/main.py:221-225 | A non-empty text delta emits exactly itself, in place. |
| Proxy.StreamFrames | api/main.py:212-241 | The frames of a run: its deltas as delta frames, then the error frame if it raised. Its shape is StreamFramesShape. |
| Proxy.StreamFramesShape | api/main.py:212-241 | There is one delta frame per delta, in order, and the last frame is the error frame iff the run raised, carrying its message. |
| Proxy.EventStream | api/main.py:212-241 | The frames are one delta frame per delta, then one error frame iff the run raised. The id kept for the cookie stays `None`, so no cookie is set. |
| Proxy.Payload | api/main.py:225 | The JSON text of a delta frame, and of the error frame of line 241. What a reader recovers from it is DeltaPayloadCarriesDelta and ErrorPayloadCarriesMessage. |
| Proxy.EventLine | api/main.py:225 | The `data: ` line of a frame. EventLineNoBreak states that it holds no line feed. |
| Proxy.EventLinesOneEach | api/main.py:225 | There is one `data: ` line per frame, in order. |
| Proxy.EventLineNoBreak | api/main.py:225 | No frame line contains a line feed, because the JSON string escaping removes it. |
| Proxy.DeltaPayloadCarriesDelta | api/main.py:225 | At the value position of a delta payload, a JSON string literal decodes to exactly the delta, and the closing brackets follow it. |
| Proxy.ErrorPayloadCarriesMessage | api/main.py:241 | The error payload carries `str(e)` in the same way. |
| Json.EncodeString | api/main.py:225 | `json.dumps` of a string is quoted and holds only printable ASCII. |
| Json.EncodeStringRoundTrip | api/main.py:225 | Decoding the encoded string gives back the string and the length read. |
| Frames.Split | public/chatbot.js:141 | `split('\n\n')`: always at least one piece. Its properties are the Split lemmas that follow. |
| Frames.Complete | public/chatbot.js:141-142 | The frames the loop processes: every piece but the last. |
| Frames.Pending | public/chatbot.js:142 | The new buffer: the last piece. |
| Frames.SplitCovers | public/chatbot.js:140-142 | The complete frames, each followed by `"\n\n"`, and then the buffer, are exactly the text received. |
| Frames.SplitPieces | public/chatbot.js:140-142 | No piece, and so not the buffer, contains `"\n\n"`. |
| Frames.SplitAppend | public/chatbot.js:137-143 | Re-splitting the buffer plus the new chunk gives the frames that splitting all the text would add, and the same buffer. |
| Frames.SplitTerminated | public/chatbot.js:140-142 | Frames without line feeds, each sent with its terminator, are split back into exactly those frames, with an empty buffer. |
| Frames.ChunkStep | public/chatbot.js:137-143 | The frames after one more chunk are the earlier frames plus those completed by the buffer and that chunk. |
| PublicClient.FirstNull | public/chatbot.js:152-153 | This is where block iteration stops: the first `null` block, whose `.type` throws. |
| PublicClient.AppendBlocks | public/chatbot.js:152-160 | Every text block before the first `null` appends its value, in order. The bubble records that one did. |
| PublicClient.ProcessFrame | public/chatbot.js:144-168 | A `data: ` frame that parses appends its delta text or replaces the id. Anything else is skipped. |
| PublicClient.ProcessFrames | public/chatbot.js:143-171 | The frames completed by one chunk are processed in order: the message grows by their text, the bubble exists once some text arrived, and the id is the last truthy one. |
| PublicClient.ReadStream | public/chatbot.js:136-170 | The message is the text of the complete frames of all text received, in order, whatever the chunking. The bubble exists iff some text arrived, so a non-empty message has its bubble. The id is the last truthy one received. |
| PublicClient.FramesIdTruthy | public/chatbot.js:163-165 | The id after the frames is the starting one or a truthy id received. |
| PublicClient.NextId | public/chatbot.js:174-177 | The stored id after an exchange: the last truthy id received from a stream that ended without error, otherwise the old one. NextIdKeepsTruthy holds of it. |
| PublicClient.NextIdKeepsTruthy | public/chatbot.js:174-177 | A truthy stored id is never cleared. |
| PublicClient.RequestBody | public/chatbot.js:124-125 | The body always has `input` and `session`, and has `previous_response_id` iff that is truthy. |
| PublicClient.Respond | public/chatbot.js:134-185 | The widget adds the bubble when text arrived, then the apology on error. The id changes only to a truthy id from a stream that ended without error. |
| PublicClient.ChatWidget.Send | public/chatbot.js:100-186 | For a non-empty message the widget keeps an existing session or takes the fresh id, sends the text with the previous response id, clears the input and shows the outcome. |
| PublicClient.ChatWidget.SendMessage | public/chatbot.js:97-186 | A whitespace-only input changes nothing. Otherwise the widget shows the user message, clears the input, makes a session only when none exists, sends the body and shows the outcome. |
| StaticClient.FramePieceShape | static/chatbot.js:111-119 | A frame appends at most one piece, and does so iff it is a `data: ` frame that parses to a text delta. |
| StaticClient.ProcessFrame | static/chatbot.js:111-121 | A parsed text-delta frame appends `String(chunk.delta)`. Anything else is skipped. |
| StaticClient.ProcessFrames | static/chatbot.js:110-122 | The frames completed by one chunk are processed in order. |
| StaticClient.ReadStream | static/chatbot.js:104-123 | The message is the text of the complete frames of all text received, in order. The bubble exists iff some delta arrived. |
| StaticClient.Respond | static/chatbot.js:98-131 | The widget adds the bubble when text arrived, then the apology on error. |
| StaticClient.RequestBody | static/chatbot.js:96 | The body is exactly `{input: text}`. |
| StaticClient.StaticWidget.SendMessage | static/chatbot.js:69-131 | A whitespace-only input changes nothing. Otherwise the widget shows the user message, clears the input, sends only the input and shows the outcome. |
| Delivery.WireFrames | public/chatbot.js:137-143 | The proxy's stream, however it is chunked, is split into exactly its frame lines, with nothing left over. |
| Delivery.PublicFrames | public/chatbot.js:144-169 | The public widget takes each delta frame's text and nothing else, and it takes no id. |
| Delivery.PublicShowsDeltas | public/chatbot.js:136-185 | A run delivered whole shows one message holding all its deltas in order, and leaves the id as it was. A server error frame shows no apology. |
| Delivery.StaticFrames | static/chatbot.js:114 | The static widget takes nothing from the proxy's frames, which have no `type`. |
| Delivery.StaticShowsNothing | static/chatbot.js:104-126 | A run delivered to the static widget shows no assistant message. |
| Delivery.StreamText | api/main.py:219-241 | The text of the proxy's frames is the run's deltas. The error frame adds none. |

## Left out

- `fetch_products` is a parameter. Building the request URL and headers, the timeout and reading `records` from the JSON response are not modelled.
- `datetime.utcnow() - timedelta(days=days)` is not modelled. The caller supplies the `since` time; only its formatting is modelled.
- Prices are integers. Python's float-to-text of `min_price` and `max_price` is not modelled.
- Python's `str()` of a field value in the Markdown is an abstract `show` parameter.
- Airtable's own reading of backslashes inside a literal is not modelled: a literal ends at the first `'`.
- The agent, its tools, `Runner.run_streamed` and the agent-construction fallback are external. The run is given as its events and an optional exception.
- The mock tools used when the import fails, the system-prompt loading and the debug prints are not modelled.
- FastAPI routing, CORS, the static mounts, the `StreamingResponse` wrapper and the cookie callback are not modelled. The cookie callback would set a cookie only for a truthy id, and the id is never assigned.
- `json.loads`, `JSON.parse` and `TextDecoder` are given: the decoders are parameters, and chunks arrive as decoded text.
- Lower-casing, `strip`/`trim` and `\s` are ASCII only. Unicode case mapping and Unicode whitespace beyond ASCII are not modelled.
- The DOM is not modelled: Markdown rendering, the thinking indicator, scrolling and the SVG helpers. The transcript records only each message's role and text, not how it is rendered while text streams in.
- `generateUUID` is a parameter, and whether its id is random or unique is not modelled.
- `app/main.py` and `api/test_deployment.py` are not part of this model.
- Proxy.PriceToolCall: a decoded product name that is not a string fails with the `TypeError` text, as `re.sub` would raise. The other refusals are those of OptionalText, OptionalNumber and LatestToolCall, below.
- Proxy.FilterToolCall: filter arguments of an unexpected JSON type are refused with an error by OptionalText and OptionalNumber. Python would interpolate their `str()` or treat a falsy one as absent.
- Proxy.LatestToolCall: a `days` value that is not a number, boolean or absent is refused, as `timedelta` would refuse it. A float `days` is not modelled. A `limit` of an unexpected type is refused, while Python would pass it on to the request.
- PublicClient.ChatWidget.SendMessage, StaticClient.StaticWidget.SendMessage: a send is one step that runs to completion. In the browser, `sendMessage` is `async` and the form stays enabled while a reply streams, so a second send can start during `await fetch` or `await reader.read()`. It would then read the old `previous_response_id`, and its user message could appear before the first reply's bubble. Overlapping sends are not modelled.
- Proxy.OptionalNumber, Proxy.LatestToolCall, Json.JsString: JSON numbers are unbounded integers (`Json.Value`'s `Num`), and floats are not modelled. Python would accept a float `limit`, `min_price`, `max_price` or `days` (`timedelta(days=1.5)`), while these take only integers. Json.JsString renders a number as its decimal integer, not as a JavaScript double (which switches to exponent notation from 1e21).
- Delivery.PublicShowsDeltas: assumes `JSON.parse` decodes each payload to the object it spells out. Only the strings inside the payloads are proved to decode.
