/**
 * `sendAssistantMessage`: the request the browser posts to the proxy and
 * the decision it takes on the answer. The network exchange itself is an
 * input: `fetch` either rejects or yields the `ok` flag and the body, which
 * `response.json()` may fail to parse.
 */
module ChatClient {
  import opened Wrappers
  import opened Json
  import opened Messages
  import ChatServer

  const DefaultApiUrl: string := "/api/ai-chat"
  const UnavailableText: string := "AI assistant is currently unavailable."
  const InvalidResponseText: string := "Invalid AI response."

  datatype HttpRequest = HttpRequest(verb: string, url: string, headers: map<string, string>, body: JsonValue)

  /** How the network exchange went, as far as the client looks at it. */
  datatype FetchOutcome =
    | NetworkError                                 // `fetch` rejected
    | Received(ok: bool, data: Option<JsonValue>)  // None: the body is not JSON

  /** Why the promise rejects: a runtime error passed on, or one of the two thrown here. */
  datatype ClientError = Passed | Unavailable | InvalidResponse

  /** An ok response whose body is `null` fails with the runtime error, not with "Invalid AI response.". */
  lemma NullBodyIsNotInvalid()
    ensures Interpret(Received(true, Some(JNull))) == Failure(Passed)
    ensures Interpret(Received(true, Some(JObject(map[])))) == Failure(InvalidResponse)
  {
  }

  /** The text of the errors this function throws itself. */
  function ErrorText(e: ClientError): (t: Option<string>)
    ensures e == Unavailable ==> t == Some(UnavailableText)
    ensures e == InvalidResponse ==> t == Some(InvalidResponseText)
    ensures e == Passed ==> t == None
  {
    match e
    case Passed => None
    case Unavailable => Some(UnavailableText)
    case InvalidResponse => Some(InvalidResponseText)
  }

  /** `VITE_AI_CHAT_API_URL || "/api/ai-chat"`: an unset or empty setting gives the default. */
  function ApiUrl(configured: Option<string>): (url: string)
    ensures url != ""
    ensures configured.Some? && configured.value != "" ==> url == configured.value
    ensures (configured.None? || configured.value == "") ==> url == DefaultApiUrl
  {
    if configured.Some? && configured.value != "" then configured.value else DefaultApiUrl
  }

  /** The JSON POST carrying the message and the history exactly as given. */
  function AssistantRequest(configured: Option<string>, message: string, history: seq<ChatMessage>): (req: HttpRequest)
    ensures req.verb == "POST" && req.url == ApiUrl(configured)
    ensures req.headers == map["Content-Type" := "application/json"]
    ensures Get(req.body, "message") == Some(JString(message))
    ensures Get(req.body, "history") == Some(HistoryToJson(history))
    ensures req.body.JObject? && req.body.fields.Keys == {"message", "history"}
  {
    HttpRequest("POST", ApiUrl(configured), map["Content-Type" := "application/json"],
                JObject(map["message" := JString(message), "history" := HistoryToJson(history)]))
  }

  /**
   * The two guards and the return: the reply when the call worked, the
   * reason it did not otherwise. Reading `reply` off a `null` body throws
   * a TypeError, which is passed on rather than reported as invalid.
   */
  function Interpret(outcome: FetchOutcome): (r: Result<JsonValue, ClientError>)
    ensures r.Success? <==> outcome.Received? && outcome.ok && outcome.data.Some? && Truthy(Get(outcome.data.value, "reply"))
    ensures r.Success? ==> r.value == Get(outcome.data.value, "reply").value
    ensures outcome.NetworkError? ==> r == Failure(Passed)
    ensures outcome.Received? && !outcome.ok ==> r == Failure(Unavailable)
    ensures outcome.Received? && outcome.ok && (outcome.data.None? || outcome.data == Some(JNull)) ==> r == Failure(Passed)
    ensures (outcome.Received? && outcome.ok && outcome.data.Some? && !outcome.data.value.JNull?
             && !Truthy(Get(outcome.data.value, "reply")))
            ==> r == Failure(InvalidResponse)
  {
    match outcome
    case NetworkError => Failure(Passed)
    case Received(ok, data) =>
      if !ok then Failure(Unavailable)
      else if data.None? || data.value.JNull? then Failure(Passed)
      else
        var reply := Get(data.value, "reply");
        if !Truthy(reply) then Failure(InvalidResponse) else Success(reply.value)
  }

  /** The proxy's response body as `res.json` writes it. */
  function ResponseJson(body: ChatServer.ResponseBody): (v: JsonValue)
    ensures body.ReplyBody? ==> Get(v, "reply") == Some(JString(body.reply))
    ensures body.ErrorBody? ==> Get(v, "reply") == None && Get(v, "error") == Some(JString(body.error))
  {
    match body
    case ReplyBody(reply) => JObject(map["reply" := JString(reply)])
    case ErrorBody(error) => JObject(map["error" := JString(error)])
  }

  /** `response.ok`: a status in the 2xx range. */
  predicate IsOk(status: nat)
  {
    200 <= status <= 299
  }

  /**
   * Whatever the proxy answers reaches the widget as the proxy's reply
   * text, unmodified, when it answered 200, and as "AI assistant is
   * currently unavailable." otherwise.
   */
  lemma InterpretsProxyResponse(body: JsonValue, upstream: seq<ChatMessage> -> ChatServer.Completion)
    ensures var r := ChatServer.Handle(body, upstream).response;
            Interpret(Received(IsOk(r.status), Some(ResponseJson(r.body))))
              == if r.status == 200 then Success(JString(r.body.reply)) else Failure(Unavailable)
  {
    ChatServer.HandleResponses(body, upstream);
    InterpretsStatus(ChatServer.Handle(body, upstream).response);
  }

  lemma InterpretsStatus(r: ChatServer.HttpResponse)
    requires r.status in {200, 400, 500}
    requires r.status == 200 ==> r.body.ReplyBody? && r.body.reply != ""
    ensures Interpret(Received(IsOk(r.status), Some(ResponseJson(r.body))))
              == if r.status == 200 then Success(JString(r.body.reply)) else Failure(Unavailable)
  {
  }
}
