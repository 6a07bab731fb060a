/**
 * The `analyze-image` serverless handler: it checks the HTTP method and the
 * request body, sends the image to the OpenAI chat-completions endpoint, and
 * turns the upstream outcome (success, timeout, error reply, anything else)
 * into one HTTP response. The one exception is an upstream error message
 * that cannot be converted to a string: logging it throws out of the `catch`
 * block, and the handler returns nothing.
 *
 * The handler is a total function of its inputs. The outcome of JSON.parse
 * and the outcome of the upstream call are inputs: the upstream call is a
 * function from the request the handler builds to the outcome axios reports,
 * and the result records which request, if any, was sent.
 */
module AnalyzeImage {
  import opened Wrappers
  import opened Js

  const Endpoint: string := "https://api.openai.com/v1/chat/completions"
  const Model: string := "gpt-4o"
  const MaxTokens: nat := 1000
  /** The axios timeout, kept below the hosting platform's 10 s execution limit. */
  const TimeoutMs: nat := 9000
  /** The code axios gives the error it throws when its timeout fires. */
  const TimeoutCode: string := "ECONNABORTED"

  const MethodNotAllowedMessage: string := "Method Not Allowed"
  const NoImageMessage: string := "No image data provided"
  const TimeoutMessage: string := "Analysis timed out. Please try with a smaller image."
  const ServerErrorPrefix: string := "Internal server error: "
  const ApiErrorType: string := "api_error"
  const ServerErrorType: string := "server_error"

  /** `response.data.choices[0].message.content` */
  const ContentPath: seq<string> := ["choices", "0", "message", "content"]

  // ---------------------------------------------------------------- inputs

  /** What JSON.parse made of the request body: a value, or a SyntaxError's message. */
  datatype ParseOutcome = Parsed(body: JsValue) | Unparsable(message: string)

  /** `error.response` of an axios error: the upstream reply to a failed request. */
  datatype UpstreamReply = UpstreamReply(status: int, statusText: string, data: Val)

  /**
   * A thrown error as the `catch` block sees it: `error.code`,
   * `error.response` and `error.message`.
   */
  datatype JsError = JsError(code: Option<string>, response: Option<UpstreamReply>, message: string)

  /** How the awaited upstream call ended: resolved with `response.data`, or rejected. */
  datatype Outcome = Resolved(data: Val) | Rejected(error: JsError)

  // ---------------------------------------------------------------- request

  /** One element of a chat message's content: the fixed extraction prompt, or the image. */
  datatype Part = Instruction | ImageUrl(url: JsValue)

  datatype ChatMessage = ChatMessage(role: string, content: seq<Part>)

  /** The POST the handler sends: endpoint, JSON payload, Authorization header and timeout. */
  datatype ChatRequest = ChatRequest(
    endpoint: string,
    model: string,
    messages: seq<ChatMessage>,
    maxTokens: nat,
    authorization: string,
    timeoutMs: nat)

  // ---------------------------------------------------------------- response

  /** The object the handler passes to JSON.stringify as the response body. */
  datatype Body =
      /** `{ error }` */
    | ErrorOnly(message: string)
      /** `{ text, filename }`; a `text` of `undefined` is dropped by JSON.stringify */
    | Analysis(text: Val, filename: JsValue)
      /** `{ error, isTimeout }` */
    | TimedOut(notice: string, isTimeout: bool)
      /** `{ error, type }` */
    | Classified(error: JsValue, errorType: string)

  datatype HttpResponse = HttpResponse(statusCode: int, body: Body)

  /** How one invocation ends: a response returned, or an exception escaping the handler. */
  datatype Completion =
    | Returned(response: HttpResponse)
      /** thrown from inside the `catch` block; the hosting runtime, not the handler, answers */
    | Escaped(message: string)

  /** One invocation: how it ended, and the upstream request sent, if any. */
  datatype Invocation = Invocation(completion: Completion, sent: Option<ChatRequest>)

  // ---------------------------------------------------------------- handler

  /** An error raised inside the handler itself (SyntaxError, TypeError): no code, no reply. */
  function LocalError(message: string): JsError {
    JsError(None, None, message)
  }

  /** The result of checking the parsed body, before any upstream call. */
  datatype Gate =
    | Refused(response: HttpResponse)
    | Threw(error: JsError)
    | Admitted(image: JsValue, filename: JsValue)

  /**
   * Parse the body, read `imageBase64` and `filename` (defaulting to
   * "unknown"), refuse a falsy image with 400, then log the filename: the log
   * line's template literal converts it to a string, which can throw.
   */
  function Validate(parse: ParseOutcome): (g: Gate)
    ensures g.Threw? <==>
              || parse.Unparsable?
              || parse.body == JNull
              || (&& Truthy(Get(parse.body, "imageBase64"))
                  && Truthy(Get(parse.body, "filename"))
                  && ToStringThrows(Get(parse.body, "filename").value))
    ensures g.Threw? ==> g.error.code == None && g.error.response == None
    ensures g.Threw? && parse.Parsed? && parse.body != JNull ==> g.error.message == ConversionErrorMessage
    ensures g.Refused? <==>
              parse.Parsed? && parse.body != JNull && !Truthy(Get(parse.body, "imageBase64"))
    ensures g.Refused? ==> g.response == HttpResponse(400, ErrorOnly(NoImageMessage))
    ensures g.Admitted? ==> Some(g.image) == Get(parse.body, "imageBase64") && Truthy(Some(g.image))
    ensures g.Admitted? ==>
              g.filename == if Truthy(Get(parse.body, "filename")) then Get(parse.body, "filename").value
                            else JStr("unknown")
    ensures g.Admitted? ==> !ToStringThrows(g.filename)
  {
    match parse
    case Unparsable(message) => Threw(LocalError(message))
    case Parsed(body) =>
      match Read(Some(body), "imageBase64")
      case Failure(message) => Threw(LocalError(message))
      case Success(image) =>
        // `body.filename` cannot throw: reading `imageBase64` just succeeded on `body`.
        var filename := Or(Get(body, "filename"), JStr("unknown"));
        if !Truthy(image) then Refused(HttpResponse(400, ErrorOnly(NoImageMessage)))
        else if ToStringThrows(filename) then Threw(LocalError(ConversionErrorMessage))
        else Admitted(image.value, filename)
  }

  /** The images a list of chat messages carries, in order. */
  function ImagesIn(messages: seq<ChatMessage>): seq<JsValue>
    decreases |messages|
  {
    if messages == [] then []
    else ImagesOf(messages[0].content) + ImagesIn(messages[1..])
  }

  function ImagesOf(parts: seq<Part>): seq<JsValue>
    decreases |parts|
  {
    if parts == [] then []
    else (if parts[0].ImageUrl? then [parts[0].url] else []) + ImagesOf(parts[1..])
  }

  /** The upstream request for an admitted image. */
  function BuildRequest(image: JsValue, apiKey: string): (r: ChatRequest)
    ensures ImagesIn(r.messages) == [image]
    ensures r.endpoint == Endpoint && r.model == Model
    ensures r.maxTokens == MaxTokens && r.timeoutMs == TimeoutMs
    ensures r.authorization == "Bearer " + apiKey
  {
    var parts := [Instruction, ImageUrl(image)];
    var messages := [ChatMessage("user", parts)];
    assert ImagesOf(parts) == [image] by {
      assert parts[1..] == [ImageUrl(image)] && parts[1..][1..] == [];
      assert ImagesOf(parts[1..]) == [image] + ImagesOf([]);
    }
    assert ImagesIn(messages) == [image] by {
      assert messages[1..] == [];
    }
    ChatRequest(
      Endpoint,
      Model,
      messages,
      MaxTokens,
      "Bearer " + apiKey,
      TimeoutMs)
  }

  /** `error.response.data.error?.message || error.response.statusText` */
  function ApiErrorMessage(reply: UpstreamReply): JsValue {
    Or(Chain(reply.data, ["error", "message"]), JStr(reply.statusText))
  }

  /**
   * The `catch` block: timeout first, then an upstream reply with data, then
   * everything else. Logging an upstream error converts its message to a
   * string; when that throws, the exception leaves the `catch` block.
   */
  function Catch(error: JsError): (c: Completion)
    ensures error.code == Some(TimeoutCode) ==>
              c == Returned(HttpResponse(504, TimedOut(TimeoutMessage, true)))
    ensures error.code != Some(TimeoutCode) && error.response.Some? && Truthy(error.response.value.data) ==>
              c == if ToStringThrows(ApiErrorMessage(error.response.value)) then Escaped(ConversionErrorMessage)
                   else Returned(HttpResponse(error.response.value.status,
                                              Classified(ApiErrorMessage(error.response.value), ApiErrorType)))
    ensures error.code != Some(TimeoutCode) && (error.response == None || !Truthy(error.response.value.data)) ==>
              c == Returned(HttpResponse(500, Classified(JStr(ServerErrorPrefix + error.message), ServerErrorType)))
  {
    if error.code == Some(TimeoutCode) then
      Returned(HttpResponse(504, TimedOut(TimeoutMessage, true)))
    else if error.response.Some? && Truthy(error.response.value.data) then
      var message := ApiErrorMessage(error.response.value);
      if ToStringThrows(message) then Escaped(ConversionErrorMessage)
      else Returned(HttpResponse(error.response.value.status, Classified(message, ApiErrorType)))
    else
      Returned(HttpResponse(500, Classified(JStr(ServerErrorPrefix + error.message), ServerErrorType)))
  }

  /**
   * How an admitted request ends once the upstream call has ended: a resolved
   * call is answered 200 with the content exactly when every read on the way
   * to it meets a non-nullish value; otherwise its TypeError, like a rejection,
   * goes to the `catch` block.
   */
  function Respond(filename: JsValue, outcome: Outcome): (c: Completion)
    ensures outcome.Rejected? ==> c == Catch(outcome.error)
    ensures outcome.Resolved? ==>
              (c == Returned(HttpResponse(200, Analysis(Chain(outcome.data, ContentPath), filename)))
               <==> forall k :: 0 <= k < |ContentPath| ==> !Nullish(Chain(outcome.data, ContentPath[..k])))
    ensures outcome.Resolved? && !(forall k :: 0 <= k < |ContentPath| ==> !Nullish(Chain(outcome.data, ContentPath[..k]))) ==>
              && c.Returned? && c.response.statusCode == 500
              && c.response.body.Classified? && c.response.body.errorType == ServerErrorType
    ensures outcome.Resolved? ==> c.Returned?
  {
    ReadPathMeetsChain(if outcome.Resolved? then outcome.data else None, ContentPath);
    match outcome
    case Rejected(error) => Catch(error)
    case Resolved(data) =>
      match ReadPath(data, ContentPath)
      case Failure(message) => Catch(LocalError(message))
      case Success(text) => Returned(HttpResponse(200, Analysis(text, filename)))
  }

  /**
   * The handler. A non-POST method is answered 405 before the body is looked
   * at; the upstream call is made only for an admitted body, and its outcome
   * alone then decides how the invocation ends.
   */
  function Handle(httpMethod: string, parse: ParseOutcome, apiKey: string, upstream: ChatRequest -> Outcome)
    : (inv: Invocation)
    ensures inv.sent.Some? <==> httpMethod == "POST" && Validate(parse).Admitted?
    ensures inv.sent.Some? ==> inv.sent.value == BuildRequest(Validate(parse).image, apiKey)
    ensures inv.sent.Some? ==> inv.completion == Respond(Validate(parse).filename, upstream(inv.sent.value))
  {
    if httpMethod != "POST" then
      Invocation(Returned(HttpResponse(405, ErrorOnly(MethodNotAllowedMessage))), None)
    else
      match Validate(parse)
      case Refused(response) => Invocation(Returned(response), None)
      case Threw(error) => Invocation(Catch(error), None)
      case Admitted(image, filename) =>
        var request := BuildRequest(image, apiKey);
        Invocation(Respond(filename, upstream(request)), Some(request))
  }
}
