/** The value shapes exchanged with the AUTOMATIC1111 generation server, the local
    history record, and the way the HTTP client turns a failed call into an error. */
module ApiTypes {

  datatype Option<+T> = None | Some(value: T)

  /** A free-form JSON object (`Record<string, any>`), kept opaque. */
  type JsonObject = map<string, string>

  /** One image kept in the local history. */
  datatype GeneratedImage = GeneratedImage(
    id: string,
    url: string,
    prompt: string,
    negativePrompt: Option<string>,
    timestamp: int,                    // epoch milliseconds
    parameters: Option<JsonObject>,
    info: Option<string>)

  /** The reply of `POST /sdapi/v1/txt2img`; `images` may be null. */
  datatype GenerationResponse = GenerationResponse(
    images: Option<seq<string>>,       // base64 payloads
    parameters: JsonObject,
    info: string)

  /** The subset of the txt2img request body that the front-end fills in. */
  datatype GenerationRequest = GenerationRequest(
    prompt: string,
    negativePrompt: Option<string>,    // absent when the form's text is blank
    width: int,
    height: int,
    steps: int,
    cfgScale: real,
    samplerName: string,
    seed: Option<int>,
    batchSize: int,
    nIter: int,
    restoreFaces: bool,
    tiling: bool,
    sendImages: bool,
    saveImages: bool)

  /** The reply of `GET /sdapi/v1/progress`; `state` is an object when present. */
  datatype ProgressResponse = ProgressResponse(
    progress: real,                    // fraction in [0, 1]
    state: Option<JsonObject>,
    textinfo: Option<string>)

  /** A JavaScript string is truthy exactly when it is non-empty. */
  predicate Truthy(s: Option<string>) {
    s.Some? && s.value != ""
  }

  /** How an HTTP call failed, as the response interceptor sees it: the server
      answered with a non-empty body (that may carry a `message`), answered with an
      empty body (`Answered(None)`: no data, as from a bare 502), or there was no
      answer at all. */
  datatype HttpFailure = Answered(body: Option<ErrorBody>) | NoAnswer
  datatype ErrorBody = ErrorBody(message: Option<string>)

  /** What a rejected call throws: an `Error` with a message, or some other value. */
  datatype Thrown = ErrorObject(message: string) | NonError

  const ApiErrorText: string := "Erro na API"
  const ConnectionErrorText: string := "Erro de conexão com a API"

  /** The interceptor's choice of message: the server's own message when it sent a
      non-empty one, a generic API error when it answered without one, and a
      connection error when nothing came back. */
  function InterceptorError(f: HttpFailure): (t: Thrown)
    ensures t.ErrorObject? && t.message != ""
    ensures f.Answered? && f.body.Some? && Truthy(f.body.value.message) ==>
              t.message == f.body.value.message.value
    ensures f.Answered? && f.body.Some? && !Truthy(f.body.value.message) ==>
              t.message == ApiErrorText
    ensures !(f.Answered? && f.body.Some?) ==> t.message == ConnectionErrorText
  {
    match f
    case Answered(Some(body)) =>
      if Truthy(body.message) then ErrorObject(body.message.value) else ErrorObject(ApiErrorText)
    case _ => ErrorObject(ConnectionErrorText)
  }

  /** The outcome of one call to the generation endpoint. */
  datatype GenerateOutcome = Generated(response: GenerationResponse) | Rejected(reason: Thrown)

  /** The outcome of one call to the progress endpoint. */
  datatype PollOutcome = Polled(snapshot: ProgressResponse) | PollFailed
}
