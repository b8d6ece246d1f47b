/**
 * The backend gateway (src/services/index.ts): three POST exchanges with the
 * generation backend.  The network is not modelled; each function receives
 * how its single `fetch` settled and maps that to what the source function
 * returns or throws.
 */
module Services {
  import opened Results
  import opened JsText
  import opened Effects

  /** The parsed JSON body of a response, in the shapes the code distinguishes. */
  datatype Body =
    | Unparsable(error: string)        // `response.json()` rejected; `error` is its rendering
    | Null                             // the JSON literal `null`
    | Record(message: Option<string>)  // an object, with or without a string `message`
    | List(items: seq<string>)         // an array of strings

  /** How the one `fetch` call settled. */
  datatype Reply =
    | Unreachable(error: string)       // `fetch` rejected; `error` is its rendering
    | Response(status: nat, body: Body)

  /** A gateway call: the request it sent, what it returned or threw, and what it showed on the way. */
  datatype Exchange<T> = Exchange(request: Request, result: Result<T>, notices: seq<Effect>)

  /** `response.ok`: a status in the range 200-299. */
  predicate IsOk(status: nat) {
    200 <= status <= 299
  }

  /** `${e}` for an `Error` whose message is `message`. */
  function Rendered(message: string): string {
    "Error: " + message
  }

  /** The message of the error thrown for a non-ok status. */
  function HttpError(status: nat): string {
    "HTTP error! status: " + NatToString(status)
  }

  const DefaultMessage := "Default commit message"
  const FallbackModels := ["gpt-3.5-turbo", "gpt-4", "gpt-4-turbo"]
  const ReviewCap := 10000
  const NoReview := "No review message returned from the server."
  const TruncationWarning := "Code review message is too long, truncating to 10000 characters."
  const MessageFailurePrefix := "Fetch failed: "
  const ModelsFailurePrefix := "Failed to fetch OpenAI models: "
  const ReviewFailurePrefix := "Fetch review code message failed: "

  /** What a read of `.message` throws when the parsed body is `null`, rendered. */
  const NullMessageRead := "TypeError: Cannot read properties of null (reading 'message')"

  /** The `Authorization` header value sent with every request. */
  function Bearer(authToken: string): string {
    "Bearer " + authToken
  }

  /** The settings `fetchMessage` receives. */
  datatype MessageConfig = MessageConfig(
    url: string, authToken: string, format: string, commitType: string,
    length: int, apiKey: string, prompt: string, model: string, diff: string)

  /** The request `fetchMessage` sends. */
  function MessageRequest(c: MessageConfig): (r: Request)
    ensures r.url == c.url
    ensures Lookup(r.headers, "Authorization") == Some(Bearer(c.authToken))
    ensures Lookup(r.headers, "Content-Type") == Some("application/json")
    ensures Keys(r.body) == ["diff", "prompt", "model", "format", "commitType", "maxLength", "apiKey"]
    ensures Lookup(r.body, "diff") == Some(Text(c.diff))
    ensures Lookup(r.body, "prompt") == Some(Text(c.prompt))
    ensures Lookup(r.body, "model") == Some(Text(c.model))
    ensures Lookup(r.body, "format") == Some(Text(c.format))
    ensures Lookup(r.body, "commitType") == Some(Text(c.commitType))
    ensures Lookup(r.body, "maxLength") == Some(Number(c.length))
    ensures Lookup(r.body, "apiKey") == Some(Text(c.apiKey))
  {
    var headers := [("Content-Type", "application/json"), ("Authorization", Bearer(c.authToken))];
    var body := [ ("diff", Text(c.diff)), ("prompt", Text(c.prompt)), ("model", Text(c.model)),
                  ("format", Text(c.format)), ("commitType", Text(c.commitType)),
                  ("maxLength", Number(c.length)), ("apiKey", Text(c.apiKey)) ];
    LookupFirst(headers, 0, "Content-Type");
    LookupFirst(headers, 1, "Authorization");
    LookupFirst(body, 0, "diff");
    LookupFirst(body, 1, "prompt");
    LookupFirst(body, 2, "model");
    LookupFirst(body, 3, "format");
    LookupFirst(body, 4, "commitType");
    LookupFirst(body, 5, "maxLength");
    LookupFirst(body, 6, "apiKey");
    Request(c.url, headers, body)
  }

  /**
   * `fetchMessage`: every failure is rethrown wrapped as "Fetch failed: …";
   * a usable response yields its `message` when that is non-empty and the
   * default text otherwise, so a success is never empty.
   */
  function FetchMessage(c: MessageConfig, reply: Reply): (x: Exchange<string>)
    ensures x.request == MessageRequest(c) && x.notices == []
    ensures x.result.Err? ==> MessageFailurePrefix <= x.result.error
    ensures x.result.Ok? <==>
      reply.Response? && IsOk(reply.status) && (reply.body.Record? || reply.body.List?)
    ensures x.result.Ok? ==> x.result.value != ""
    ensures reply.Unreachable? ==> x.result == Err(MessageFailurePrefix + reply.error)
    ensures reply.Response? && !IsOk(reply.status) ==>
      x.result == Err(MessageFailurePrefix + Rendered(HttpError(reply.status)))
    ensures reply.Response? && IsOk(reply.status) && reply.body.Record? && Truthy(reply.body.message) ==>
      x.result == Ok(reply.body.message.value)
    ensures reply.Response? && IsOk(reply.status) && x.result.Ok? && x.result.value != DefaultMessage ==>
      reply.body == Record(Some(x.result.value))
  {
    var result :=
      match reply
      case Unreachable(e) => Err(MessageFailurePrefix + e)
      case Response(status, body) =>
        if !IsOk(status) then Err(MessageFailurePrefix + Rendered(HttpError(status)))
        else
          match body
          case Unparsable(e) => Err(MessageFailurePrefix + e)
          case Null => Err(MessageFailurePrefix + NullMessageRead)
          case Record(m) => Ok(if Truthy(m) then m.value else DefaultMessage)
          case List(_) => Ok(DefaultMessage);
    Exchange(MessageRequest(c), result, [])
  }

  /** The status of a non-ok response can be read back from the end of the error text. */
  lemma FetchMessageReportsStatus(c: MessageConfig, status: nat, body: Body)
    requires !IsOk(status)
    ensures var e := FetchMessage(c, Response(status, body)).result.error;
      var digits := NatToString(status);
      |digits| <= |e| && e[|e| - |digits|..] == digits && DigitsValue(e[|e| - |digits|..]) == status
  {
    var digits := NatToString(status);
    var e := FetchMessage(c, Response(status, body)).result.error;
    assert e == (MessageFailurePrefix + "Error: " + "HTTP error! status: ") + digits;
    DecimalRoundTrip(status);
  }

  /** The request `fetchOpenAiModels` sends. */
  function ModelsRequest(url: string, authToken: string, apiKey: string): (r: Request)
    ensures r.url == url
    ensures Lookup(r.headers, "Authorization") == Some(Bearer(authToken))
    ensures Keys(r.body) == ["apiKey"] && Lookup(r.body, "apiKey") == Some(Text(apiKey))
  {
    Request(url, [("Authorization", Bearer(authToken)), ("Content-Type", "application/json")],
            [("apiKey", Text(apiKey))])
  }

  /**
   * `fetchOpenAiModels`: failures are rethrown as "Failed to fetch OpenAI
   * models: …"; a usable response yields the parsed body, and a `null` body
   * yields the fixed three-model list instead.
   */
  function FetchOpenAiModels(url: string, authToken: string, apiKey: string, reply: Reply): (x: Exchange<Body>)
    ensures x.request == ModelsRequest(url, authToken, apiKey) && x.notices == []
    ensures x.result.Err? ==> ModelsFailurePrefix <= x.result.error
    ensures x.result.Ok? <==> reply.Response? && IsOk(reply.status) && !reply.body.Unparsable?
    ensures reply.Response? && !IsOk(reply.status) ==>
      x.result == Err(ModelsFailurePrefix + Rendered(HttpError(reply.status)))
    ensures x.result.Ok? && reply.body.Null? ==> x.result.value == List(FallbackModels)
    ensures x.result.Ok? && !reply.body.Null? ==> x.result.value == reply.body
  {
    var result :=
      match reply
      case Unreachable(e) => Err(ModelsFailurePrefix + e)
      case Response(status, body) =>
        if !IsOk(status) then Err(ModelsFailurePrefix + Rendered(HttpError(status)))
        else
          match body
          case Unparsable(e) => Err(ModelsFailurePrefix + e)
          case Null => Ok(List(FallbackModels))
          case _ => Ok(body);
    Exchange(ModelsRequest(url, authToken, apiKey), result, [])
  }

  /** The settings `fetchCodeReview` receives. */
  datatype ReviewConfig = ReviewConfig(url: string, authToken: string, apiKey: string, model: string, diff: string)

  /** The request `fetchCodeReview` sends. */
  function ReviewRequest(c: ReviewConfig): (r: Request)
    ensures r.url == c.url
    ensures Lookup(r.headers, "Authorization") == Some(Bearer(c.authToken))
    ensures Keys(r.body) == ["diff", "model", "apiKey"]
    ensures Lookup(r.body, "diff") == Some(Text(c.diff))
    ensures Lookup(r.body, "model") == Some(Text(c.model))
    ensures Lookup(r.body, "apiKey") == Some(Text(c.apiKey))
  {
    var headers := [("Content-Type", "application/json"), ("Authorization", Bearer(c.authToken))];
    var body := [("diff", Text(c.diff)), ("model", Text(c.model)), ("apiKey", Text(c.apiKey))];
    LookupFirst(headers, 1, "Authorization");
    LookupFirst(body, 0, "diff");
    LookupFirst(body, 1, "model");
    LookupFirst(body, 2, "apiKey");
    Request(c.url, headers, body)
  }

  /**
   * `fetchCodeReview`: failures, including a body without a non-empty
   * `message`, are rethrown as "Fetch review code message failed: …"; a
   * review longer than the cap is cut to exactly its first 10000 characters,
   * with one warning, and a shorter one is returned unchanged.
   */
  function FetchCodeReview(c: ReviewConfig, reply: Reply): (x: Exchange<string>)
    ensures x.request == ReviewRequest(c)
    ensures x.result.Err? ==> ReviewFailurePrefix <= x.result.error && x.notices == []
    ensures x.result.Ok? <==>
      reply.Response? && IsOk(reply.status) && reply.body.Record? && Truthy(reply.body.message)
    ensures x.result.Ok? ==>
      var m := reply.body.message.value;
      && 0 < |x.result.value| <= ReviewCap
      && x.result.value <= m
      && (x.result.value == m <==> |m| <= ReviewCap)
      && (|m| > ReviewCap ==> x.result.value == m[..ReviewCap])
      && (|m| > ReviewCap <==> x.notices == [Notify(Warning, TruncationWarning)])
      && (|m| <= ReviewCap <==> x.notices == [])
    ensures reply.Response? && IsOk(reply.status) && !reply.body.Unparsable? && !(reply.body.Record? && Truthy(reply.body.message)) ==>
      x.result == Err(ReviewFailurePrefix + Rendered(NoReview))
    ensures reply.Response? && !IsOk(reply.status) ==>
      x.result == Err(ReviewFailurePrefix + Rendered(HttpError(reply.status)))
  {
    match reply
    case Unreachable(e) => Exchange(ReviewRequest(c), Err(ReviewFailurePrefix + e), [])
    case Response(status, body) =>
      if !IsOk(status) then Exchange(ReviewRequest(c), Err(ReviewFailurePrefix + Rendered(HttpError(status))), [])
      else if body.Unparsable? then Exchange(ReviewRequest(c), Err(ReviewFailurePrefix + body.error), [])
      else if !(body.Record? && Truthy(body.message)) then
        Exchange(ReviewRequest(c), Err(ReviewFailurePrefix + Rendered(NoReview)), [])
      else if |body.message.value| > ReviewCap then
        Exchange(ReviewRequest(c), Ok(body.message.value[..ReviewCap]), [Notify(Warning, TruncationWarning)])
      else Exchange(ReviewRequest(c), Ok(body.message.value), [])
  }
}
