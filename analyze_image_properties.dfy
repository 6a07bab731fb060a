/**
 * What the handler guarantees, stated over all inputs: the gate before the
 * upstream call, the request it sends, and the decision table that maps each
 * way the call can end to one response.
 */
module AnalyzeImageProperties {
  import opened Wrappers
  import opened Js
  import opened AnalyzeImage

  // ------------------------------------------------------------ the gate

  /** Any method other than POST is answered 405 and nothing is sent upstream. */
  lemma NonPostAnswered405(httpMethod: string, parse: ParseOutcome, apiKey: string, upstream: ChatRequest -> Outcome)
    requires httpMethod != "POST"
    ensures Handle(httpMethod, parse, apiKey, upstream)
            == Invocation(Returned(HttpResponse(405, ErrorOnly("Method Not Allowed"))), None)
  {
  }

  /** A POST whose `imageBase64` is missing or falsy is answered 400 and nothing is sent upstream. */
  lemma FalsyImageAnswered400(body: JsValue, apiKey: string, upstream: ChatRequest -> Outcome)
    requires body != JNull && !Truthy(Get(body, "imageBase64"))
    ensures Handle("POST", Parsed(body), apiKey, upstream)
            == Invocation(Returned(HttpResponse(400, ErrorOnly("No image data provided"))), None)
  {
  }

  /**
   * A body that is not JSON, or is the JSON literal `null`, throws before the
   * image is checked: 500 with the SyntaxError's or the TypeError's message,
   * and nothing is sent upstream.
   */
  lemma UnreadableBodyAnswered500(parse: ParseOutcome, apiKey: string, upstream: ChatRequest -> Outcome)
    requires parse.Unparsable? || parse.body == JNull
    ensures var message := if parse.Unparsable? then parse.message
                           else "Cannot read properties of null (reading 'imageBase64')";
            Handle("POST", parse, apiKey, upstream)
            == Invocation(Returned(HttpResponse(500, Classified(JStr("Internal server error: " + message), "server_error"))), None)
  {
    if parse.Parsed? {
      assert TypeErrorMessage(NullishName(Some(JNull)), "imageBase64")
             == "Cannot read properties of null (reading 'imageBase64')";
    }
  }

  /**
   * Whatever throws before the upstream call (JSON.parse, the read of
   * `imageBase64`, the logging of `filename`) is answered 500 with that
   * error's message, and nothing is sent upstream.
   */
  lemma GateErrorAnswered500(parse: ParseOutcome, apiKey: string, upstream: ChatRequest -> Outcome)
    requires Validate(parse).Threw?
    ensures Handle("POST", parse, apiKey, upstream)
            == Invocation(Returned(HttpResponse(500, Classified(
                 JStr("Internal server error: " + Validate(parse).error.message), "server_error"))), None)
  {
  }

  /**
   * An image-bearing body whose `filename` is an object with its own
   * `toString` key (or an array holding one) throws when the filename is
   * logged: 500, and nothing is sent upstream.
   */
  lemma UnprintableFilenameAnswered500(body: JsValue, apiKey: string, upstream: ChatRequest -> Outcome)
    requires Truthy(Get(body, "imageBase64")) && Truthy(Get(body, "filename"))
    requires ToStringThrows(Get(body, "filename").value)
    ensures Handle("POST", Parsed(body), apiKey, upstream)
            == Invocation(Returned(HttpResponse(500, Classified(
                 JStr("Internal server error: " + ConversionErrorMessage), "server_error"))), None)
  {
    assert body != JNull;
    assert Validate(Parsed(body)).error.message == ConversionErrorMessage;
    GateErrorAnswered500(Parsed(body), apiKey, upstream);
  }

  /**
   * The response depends on the upstream service only through its answer to
   * the one request that was sent: with no request sent it does not depend on
   * the upstream at all.
   */
  lemma UpstreamConsultedOnce(
    httpMethod: string, parse: ParseOutcome, apiKey: string, f: ChatRequest -> Outcome, g: ChatRequest -> Outcome)
    ensures var inv := Handle(httpMethod, parse, apiKey, f);
            (inv.sent == None || f(inv.sent.value) == g(inv.sent.value)) ==>
              Handle(httpMethod, parse, apiKey, g) == inv
  {
  }

  /**
   * The request that is sent carries the body's `imageBase64` value unchanged
   * as its only image, model gpt-4o, 1000 tokens and a 9000 ms timeout.
   */
  lemma SentRequestCarriesImage(httpMethod: string, parse: ParseOutcome, apiKey: string, upstream: ChatRequest -> Outcome)
    ensures var inv := Handle(httpMethod, parse, apiKey, upstream);
            inv.sent.Some? ==>
              && parse.Parsed?
              && ImagesIn(inv.sent.value.messages) == [Get(parse.body, "imageBase64").value]
              && inv.sent.value.endpoint == "https://api.openai.com/v1/chat/completions"
              && inv.sent.value.model == "gpt-4o"
              && inv.sent.value.maxTokens == 1000
              && inv.sent.value.timeoutMs == 9000
  {
  }

  /** An analysis echoes the request's `filename` when it is truthy, and "unknown" otherwise. */
  lemma FilenameEchoed(body: JsValue, apiKey: string, upstream: ChatRequest -> Outcome)
    ensures var c := Handle("POST", Parsed(body), apiKey, upstream).completion;
            c.Returned? && c.response.body.Analysis? ==>
              c.response.body.filename == (if Truthy(Get(body, "filename")) then Get(body, "filename").value
                                  else JStr("unknown"))
  {
  }

  // ------------------------------------------------------------ success

  /**
   * A reply whose `choices[0].message` has a `content` field is answered 200
   * with that content, unmodified, as `text`, whatever other fields the
   * reply, the choice and the message carry.
   */
  lemma ContentForwardedVerbatim(
    filename: JsValue, reply: map<string, JsValue>, choices: seq<JsValue>,
    choice: map<string, JsValue>, message: map<string, JsValue>)
    requires "choices" in reply && reply["choices"] == JArr(choices)
    requires |choices| > 0 && choices[0] == JObj(choice)
    requires "message" in choice && choice["message"] == JObj(message)
    requires "content" in message
    ensures Respond(filename, Resolved(Some(JObj(reply))))
            == Returned(HttpResponse(200, Analysis(Some(message["content"]), filename)))
  {
  }

  /** `data.choices[0].message` is reached without meeting null or undefined. */
  predicate ContentReachable(data: Val) {
    forall k :: 0 <= k < |ContentPath| ==> !Nullish(Chain(data, ContentPath[..k]))
  }

  /**
   * A resolved call is answered 200 exactly when `data.choices[0].message`
   * exists; `text` is then `data?.choices?.[0]?.message?.content`, which may
   * itself be undefined (and then left out of the JSON body).
   */
  lemma {:induction false} ResolvedAnswered200Iff(filename: JsValue, data: Val)
    ensures var c := Respond(filename, Resolved(data));
            && c.Returned?
            && (c.response.statusCode == 200 <==> ContentReachable(data))
            && (ContentReachable(data) ==> c.response.body == Analysis(Chain(data, ContentPath), filename))
  {
    ReadPathMeetsChain(data, ContentPath);
  }

  /**
   * A resolved call whose data lacks `choices[0].message` is answered 500;
   * the message is the TypeError of the first property read on null or
   * undefined.
   */
  lemma {:induction false} MalformedReplyAnswered500(filename: JsValue, data: Val)
    requires !ContentReachable(data)
    ensures exists k ::
              && 0 <= k < |ContentPath|
              && Nullish(Chain(data, ContentPath[..k]))
              && (forall j :: 0 <= j < k ==> !Nullish(Chain(data, ContentPath[..j])))
              && Respond(filename, Resolved(data))
                 == Returned(HttpResponse(500, Classified(
                      JStr("Internal server error: " +
                           TypeErrorMessage(NullishName(Chain(data, ContentPath[..k])), ContentPath[k])),
                      "server_error")))
  {
    ReadPathMeetsChain(data, ContentPath);
    var k := ReadPathFailsAt(data, ContentPath);
  }

  /**
   * Every reply whose `choices[0].message` exists but has no `content` is
   * answered 200, with `text` undefined and so left out of the body.
   */
  lemma {:induction false} MissingContentStill200(filename: JsValue, data: Val)
    requires ContentReachable(data)
    requires Get(Chain(data, ContentPath[..3]).value, "content") == None
    ensures Respond(filename, Resolved(data)) == Returned(HttpResponse(200, Analysis(None, filename)))
  {
    ReadPathMeetsChain(data, ContentPath);
    ChainSnoc(data, ContentPath[..3], "content");
    assert ContentPath[..3] + ["content"] == ContentPath;
  }

  /** Optional chaining one property further is one more read on a non-nullish value. */
  lemma {:induction false} ChainSnoc(v: Val, path: seq<string>, name: string)
    requires !Nullish(Chain(v, path))
    ensures Chain(v, path + [name]) == Get(Chain(v, path).value, name)
    decreases |path|
  {
    if path == [] {
      assert [] + [name] == [name];
    } else {
      assert (path + [name])[1..] == path[1..] + [name];
      if !Nullish(v) {
        ChainSnoc(Get(v.value, path[0]), path[1..], name);
      }
    }
  }

  // ------------------------------------------------------------ errors

  /** A timeout is answered 504 even when the error also carries an upstream reply. */
  lemma TimeoutWins(filename: JsValue, reply: Option<UpstreamReply>, message: string)
    ensures Respond(filename, Rejected(JsError(Some("ECONNABORTED"), reply, message)))
            == Returned(HttpResponse(504, TimedOut("Analysis timed out. Please try with a smaller image.", true)))
  {
  }

  /**
   * The message of an api_error is the upstream `error.message` when that is
   * truthy, and the reply's status text otherwise.
   */
  lemma ApiErrorMessageCases(reply: UpstreamReply)
    requires Truthy(reply.data)
    ensures var err := Get(reply.data.value, "error");
            var m := if Nullish(err) then None else Get(err.value, "message");
            ApiErrorMessage(reply) == if Truthy(m) then m.value else JStr(reply.statusText)
  {
  }

  /**
   * An upstream reply whose `error.message` is truthy and can be logged is
   * answered with the reply's status and that message, unchanged, whatever
   * else the reply body carries.
   */
  lemma UpstreamErrorPassedThrough(
    filename: JsValue, code: Option<string>, message: string, status: int, statusText: string,
    data: Val, detail: JsValue)
    requires code != Some("ECONNABORTED")
    requires Chain(data, ["error", "message"]) == Some(detail)
    requires Truthy(Some(detail)) && !ToStringThrows(detail)
    ensures Respond(filename, Rejected(JsError(code, Some(UpstreamReply(status, statusText, data)), message)))
            == Returned(HttpResponse(status, Classified(detail, "api_error")))
  {
  }

  /**
   * An upstream `error.message` that cannot be converted to a string (an
   * object with its own `toString` key, say) cannot be logged: the exception
   * escapes the `catch` block and no response is returned.
   */
  lemma UnprintableApiMessageEscapes(
    filename: JsValue, code: Option<string>, message: string, status: int, statusText: string,
    data: Val, detail: JsValue)
    requires code != Some("ECONNABORTED")
    requires Chain(data, ["error", "message"]) == Some(detail)
    requires ToStringThrows(detail)
    ensures Respond(filename, Rejected(JsError(code, Some(UpstreamReply(status, statusText, data)), message)))
            == Escaped("Cannot convert object to primitive value")
  {
  }

  /**
   * Any other rejection (no reply, or a reply whose data is falsy) is
   * answered 500 with the error's message after a fixed prefix.
   */
  lemma OtherFailuresAnswered500(filename: JsValue, error: JsError)
    requires error.code != Some("ECONNABORTED")
    requires error.response == None || !Truthy(error.response.value.data)
    ensures var c := Respond(filename, Rejected(error));
            && c.Returned?
            && c.response.statusCode == 500
            && c.response.body.Classified?
            && c.response.body.errorType == "server_error"
            && c.response.body.error.JStr?
            && c.response.body.error.s[..|"Internal server error: "|] == "Internal server error: "
            && c.response.body.error.s[|"Internal server error: "|..] == error.message
  {
  }

  /**
   * Given that axios rejects exactly the replies whose status is outside
   * 200-299, a returned status is 2xx exactly when it carries an analysis.
   */
  lemma StatusSignalsAnalysis(filename: JsValue, outcome: Outcome)
    requires outcome.Rejected? && outcome.error.response.Some? ==>
               !(200 <= outcome.error.response.value.status < 300)
    ensures var c := Respond(filename, outcome);
            c.Returned? ==>
              && (200 <= c.response.statusCode < 300 <==> c.response.body.Analysis?)
              && (c.response.body.Analysis? ==> c.response.statusCode == 200)
  {
  }

  // ------------------------------------------------------------ decision table

  /** The branches of the handler: one per response shape, and the escaped exception. */
  datatype Branch = MethodNotAllowed | BadRequest | Analysed | Timeout | ApiError | ServerError | Unanswered

  /** Which branch ended an invocation. */
  function BranchOf(c: Completion): Branch {
    match c
    case Escaped(_) => Unanswered
    case Returned(r) =>
      match r.body
      case ErrorOnly(_) => if r.statusCode == 405 then MethodNotAllowed else BadRequest
      case Analysis(_, _) => Analysed
      case TimedOut(_, _) => Timeout
      case Classified(_, t) => if t == ApiErrorType then ApiError else ServerError
  }

  /**
   * The handler's decision table as a flat list of conditions in priority
   * order, with `answer` the upstream's answer to the request (used only in
   * the rows reached after the gate).
   */
  function Expected(httpMethod: string, parse: ParseOutcome, answer: Outcome): Branch {
    if httpMethod != "POST" then MethodNotAllowed
    else if parse.Unparsable? || parse.body == JNull then ServerError
    else if !Truthy(Get(parse.body, "imageBase64")) then BadRequest
    else if Truthy(Get(parse.body, "filename")) && ToStringThrows(Get(parse.body, "filename").value) then ServerError
    else
      match answer
      case Resolved(data) => if ContentReachable(data) then Analysed else ServerError
      case Rejected(e) =>
        if e.code == Some(TimeoutCode) then Timeout
        else if e.response.Some? && Truthy(e.response.value.data) then
          if ToStringThrows(ApiErrorMessage(e.response.value)) then Unanswered else ApiError
        else ServerError
  }

  /** Every invocation ends in the branch the decision table names. */
  lemma {:induction false} HandleFollowsTable(
    httpMethod: string, parse: ParseOutcome, apiKey: string, upstream: ChatRequest -> Outcome)
    ensures var inv := Handle(httpMethod, parse, apiKey, upstream);
            inv.sent.Some? ==> BranchOf(inv.completion) == Expected(httpMethod, parse, upstream(inv.sent.value))
    ensures var inv := Handle(httpMethod, parse, apiKey, upstream);
            inv.sent == None ==> forall answer :: BranchOf(inv.completion) == Expected(httpMethod, parse, answer)
  {
    var inv := Handle(httpMethod, parse, apiKey, upstream);
    if inv.sent.Some? {
      var answer := upstream(inv.sent.value);
      if answer.Resolved? {
        ReadPathMeetsChain(answer.data, ContentPath);
      }
    }
  }
}
