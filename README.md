# analyze-image handler, modelled in Dafny

The repository's server side is one Netlify function,
`netlify/functions/analyze-image.js`. It accepts a POST whose JSON body holds
a base64 image (`imageBase64`) and an optional `filename`. It sends the image
to the OpenAI chat-completions endpoint (model `gpt-4o`, 1000 tokens, 9 s
timeout) and answers with the extracted text. A method other than POST is
answered 405 and a missing image 400, each with a plain `{error}` body. Other
failures are answered with one classified error: a 504 timeout, a
passed-through upstream `api_error`, or a 500 `server_error`. The one failure
with no response is an upstream error message that cannot be converted to a
string. Logging it throws out of the `catch` block, and the exception escapes
the handler.

This project models that handler as a total pure function:

    Handle(httpMethod, parse, apiKey, upstream) -> Invocation(completion, sent)

- `parse` is what `JSON.parse` made of the request body: a value, or a
  SyntaxError.
- `upstream` maps the request the handler builds to the outcome axios
  reports: resolved with `response.data`, or rejected with an error carrying
  `code`, `response` and `message`.
- `completion` is the response returned, or the message of an exception that
  escapes the handler.
- `sent` records which request, if any, was sent upstream.

Files:

- `wrappers.dfy` (`Wrappers`): `Option` and `Result`.
- `js.dfy` (`Js`): the JavaScript semantics the handler relies on. It covers
  JSON values, truthiness, `||`, property reads that throw a TypeError on
  `null`/`undefined`, optional chaining, and array and string index
  properties. It also proves that a chain of plain reads succeeds exactly
  when optional chaining meets no nullish prefix.
- `analyze_image.dfy` (`AnalyzeImage`): the request gate, the upstream
  payload, the `catch` block and the handler.
- `analyze_image_properties.dfy` (`AnalyzeImageProperties`): the guarantees,
  stated over all inputs. This includes a flat, priority-ordered decision
  table (`Expected`) that the handler is proved to follow.

Behaviours of the handler that the model captures and proves:

- A body that is the JSON literal `null` gets a 500 TypeError, not a 400.
- A `filename` that cannot be converted to a string is rejected. This
  means an object with its own `toString` key, or an array holding one.
  Logging the filename throws, so the request gets a 500 and nothing is
  sent upstream.
- A reply whose `choices[0].message` has no `content` gets a 200 with `text`
  left out.
- An upstream error reply keeps its own status code, whatever that code is.
- An upstream `error.message` that cannot be converted to a string makes the
  error log line throw inside the `catch` block. The exception escapes the
  handler, and no response is returned.

## Model

| member | source | states |
|---|---|---|
| `AnalyzeImage.Handle` | netlify/functions/analyze-image.js:4-107 | a request is sent upstream exactly when the method is POST and the body passes the gate, and it is the request built from the body's image; the invocation then ends exactly as the upstream outcome decides for the admitted filename |
| `AnalyzeImage.Validate` | netlify/functions/analyze-image.js:13-26 | unparsable or `null` bodies throw a local error (no code, no reply); a body with a missing or falsy `imageBase64` gets 400 "No image data provided"; a truthy image with a filename that cannot be converted to a string throws "Cannot convert object to primitive value"; otherwise the image is admitted unchanged, with `filename` when truthy and "unknown" otherwise |
| `AnalyzeImage.BuildRequest` | netlify/functions/analyze-image.js:29-58 | the payload's only image is the given value, unchanged; endpoint, model gpt-4o, 1000 max tokens, 9000 ms timeout, and a Bearer authorization built from the key |
| `AnalyzeImage.Catch` | netlify/functions/analyze-image.js:67-105 | the code ECONNABORTED gives 504 with `isTimeout` set, whatever else the error carries; otherwise a reply with truthy data gives that reply's status and `api_error`, unless its message cannot be converted to a string, in which case the exception escapes and nothing is returned; everything else gives 500 `server_error` with the error message after "Internal server error: " |
| `AnalyzeImage.Respond` | netlify/functions/analyze-image.js:59-66 | a resolved call always returns a response: 200 with `{text, filename}`, where `text` is `choices[0].message.content` as optional chaining finds it, exactly when no read on that path meets null or undefined, and otherwise 500 `server_error` through the `catch` block; a rejected call ends as the `catch` block decides |
| `Js.ReadPathMeetsChain` | netlify/functions/analyze-image.js:63 | a chain of plain property reads succeeds exactly when no proper prefix is null or undefined, and then it yields the optional-chaining value |
| `Js.ReadPathFailsAt` | netlify/functions/analyze-image.js:63 | when the chain throws, the TypeError names the property read at the first nullish prefix, and says whether that prefix was null or undefined |
| `AnalyzeImageProperties.NonPostAnswered405` | netlify/functions/analyze-image.js:6-11 | any method other than POST gets 405 "Method Not Allowed" and nothing is sent upstream |
| `AnalyzeImageProperties.FalsyImageAnswered400` | netlify/functions/analyze-image.js:19-24 | a missing or falsy `imageBase64` gets 400 "No image data provided" and nothing is sent upstream |
| `AnalyzeImageProperties.UnreadableBodyAnswered500` | netlify/functions/analyze-image.js:13-16 | a body that fails JSON.parse, or parses to `null`, gets 500 `server_error` carrying the SyntaxError's or TypeError's message, and nothing is sent upstream |
| `AnalyzeImageProperties.GateErrorAnswered500` | netlify/functions/analyze-image.js:13-26 | whatever throws before the upstream call gets 500 `server_error` with "Internal server error: " and that error's message, and nothing is sent upstream |
| `AnalyzeImageProperties.UnprintableFilenameAnswered500` | netlify/functions/analyze-image.js:26 | a body with a truthy image and a filename that cannot be converted to a string gets 500 "Internal server error: Cannot convert object to primitive value", and nothing is sent upstream |
| `AnalyzeImageProperties.UpstreamConsultedOnce` | netlify/functions/analyze-image.js:19-29 | the response depends on the upstream only through its answer to the one request sent, and not at all when nothing is sent |
| `AnalyzeImageProperties.SentRequestCarriesImage` | netlify/functions/analyze-image.js:29-58 | every request sent carries the body's `imageBase64` as its only image, unchanged, with model gpt-4o, 1000 tokens and a 9000 ms timeout |
| `AnalyzeImageProperties.FilenameEchoed` | netlify/functions/analyze-image.js:17 | an analysis echoes a truthy request `filename` and "unknown" otherwise |
| `AnalyzeImageProperties.ContentForwardedVerbatim` | netlify/functions/analyze-image.js:60-66 | any reply whose `choices[0].message` has a `content` field gets 200 with that content as `text`, unmodified, whatever other fields the reply, choice and message carry |
| `AnalyzeImageProperties.ResolvedAnswered200Iff` | netlify/functions/analyze-image.js:60-66 | a resolved call always returns a response, and it is 200 exactly when `data.choices[0].message` exists; `text` is then the content found there |
| `AnalyzeImageProperties.MalformedReplyAnswered500` | netlify/functions/analyze-image.js:60-105 | a resolved call without `choices[0].message` gets 500 `server_error` whose message is the TypeError of the first read on null or undefined |
| `AnalyzeImageProperties.MissingContentStill200` | netlify/functions/analyze-image.js:60-66 | every reply whose `choices[0].message` exists but has no `content` gets 200, with `text` undefined and so left out of the body |
| `AnalyzeImageProperties.TimeoutWins` | netlify/functions/analyze-image.js:71-79 | ECONNABORTED gives 504 with the timeout notice even when an upstream reply is present |
| `AnalyzeImageProperties.ApiErrorMessageCases` | netlify/functions/analyze-image.js:84-85 | `AnalyzeImage.ApiErrorMessage`, the `error?.message || statusText` expression, is the reply's `error.message` when that is truthy, and its status text otherwise |
| `AnalyzeImageProperties.UpstreamErrorPassedThrough` | netlify/functions/analyze-image.js:82-96 | any upstream reply whose `error.message` is truthy and convertible to a string gets the upstream status unchanged, that message unchanged and type `api_error`, whatever else the reply body carries |
| `AnalyzeImageProperties.UnprintableApiMessageEscapes` | netlify/functions/analyze-image.js:82-87 | an upstream `error.message` that cannot be converted to a string makes the log line throw out of the `catch` block: the invocation ends in an escaped exception, with no response |
| `AnalyzeImageProperties.OtherFailuresAnswered500` | netlify/functions/analyze-image.js:99-105 | any other rejection gets 500 `server_error`, and its message is "Internal server error: " followed by the error's own message |
| `AnalyzeImageProperties.StatusSignalsAnalysis` | netlify/functions/analyze-image.js:60-105 | when axios rejects exactly the non-2xx replies, a returned status is 2xx exactly for an analysis, and that status is 200 |
| `AnalyzeImageProperties.HandleFollowsTable` | netlify/functions/analyze-image.js:4-107 | every invocation ends in the branch named by the flat priority table: method, then body readability, then image, then filename conversion, then success, timeout, api_error (or the escaped exception when its message cannot be converted) and server_error |

## Left out

- The network call itself (`axios.post`), HTTP transport and the expiry of the 9 s timer: a foreign library and real time. The call's outcome is an input.
- Reading `OPENAI_API_KEY` from the environment: the key is a string parameter. An unset key, which JavaScript would render as the text "undefined", is not modelled.
- The `Content-Type` request header, the extraction prompt's wording and `temperature: 0.3`. The prompt is the constructor `Instruction`, and the temperature is a float with no logic depending on it.
- JSON.parse and JSON.stringify internals. The parse result is an input, and response bodies are datatypes. The one stringify rule the handler's behaviour shows, dropping an `undefined` `text`, is captured as a `text` of `None`.
- What `console.log` and `console.error` print, `async`/`await` and the Netlify `context` argument. These are side effects and runtime with no behavioural contract. The string conversions their template literals perform are modelled, because they can throw.
- What the hosting runtime answers when an exception escapes the handler. The model records only that the handler returned nothing, and the exception's message.
- Properties inherited from JavaScript prototypes, such as `toString`, are not modelled as values. None of the names the handler reads is inherited. The only place an inherited method decides behaviour is string conversion, and `Js.ToStringThrows` models that.
- String indexing works on Dafny characters, not UTF-16 code units.
- `AnalyzeImageProperties.StatusSignalsAnalysis`: axios's default `validateStatus`, which makes only non-2xx replies rejections, is a precondition here and is not derived.
