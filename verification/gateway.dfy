/**
 * The four request handlers of the main process, composed from the pieces:
 * send, send-stream, test-connection and list-models.  The network is the
 * `fetch` parameter; the file system and the URL parser are fields of `Env`.
 */
module Gateway {
  import opened Wrappers
  import opened Text
  import opened Json
  import opened ConfigStore
  import opened Requests
  import opened Diagnostics
  import opened StreamDecoder
  import opened Responses

  /** The foreign predicates and codec a handler consults. */
  datatype Env = Env(isUrl: string -> bool, fileExists: string -> bool, codec: Codec)

  /** A response body read incrementally: the chunks delivered, then either the
      end of the stream (`failure` is `None`) or a rejected read. */
  datatype ReadStream = ReadStream(chunks: seq<string>, failure: Option<string>)

  /** A response: its status, its whole text (what `text()` and `json()` read),
      and its reader (`None` when `response.body` is null). */
  datatype HttpResponse = HttpResponse(status: nat, text: string, reader: Option<ReadStream>)

  datatype FetchOutcome = Rejected(error: FetchError) | Responded(response: HttpResponse)

  type Fetch = HttpRequest -> FetchOutcome

  // ---------------------------------------------------------------------------
  // send-message
  // ---------------------------------------------------------------------------

  datatype SendResult = SendOk(content: Json, raw: Json) | SendErr(error: string)

  /** The configuration and URL checks every chat handler starts with. */
  function ChatPreflight(configs: seq<ApiConfig>, configId: string, env: Env): (r: Result<ApiConfig, string>)
    ensures r.Success? <==> HasId(configs, configId)
                            && !IsBlank(Find(configs, configId).value.baseUrl)
                            && env.isUrl(Find(configs, configId).value.baseUrl)
    ensures r.Success? ==> r.value == Find(configs, configId).value
    ensures !HasId(configs, configId) ==> r == Failure(NotFoundMessage)
    ensures HasId(configs, configId) && r.Failure? ==> r.error == CheckBaseUrl(Find(configs, configId).value.baseUrl, env.isUrl).error
  {
    match Find(configs, configId)
    case Failure(msg) => Failure(msg)
    case Success(cfg) =>
      match CheckBaseUrl(cfg.baseUrl, env.isUrl)
      case Failure(msg) => Failure(msg)
      case Success(_) => Success(cfg)
  }

  /** `send-message`: one POST; a non-2xx status is reported with its code and
      the whole body, unclassified. */
  function SendMessage(configs: seq<ApiConfig>, configId: string, message: string, env: Env, fetch: Fetch): (r: SendResult)
    ensures r.SendErr? ==> r.error != ""
    ensures ChatPreflight(configs, configId, env).Failure? ==> r == SendErr(ChatPreflight(configs, configId, env).error)
    ensures ChatPreflight(configs, configId, env).Success? ==>
              var cfg := ChatPreflight(configs, configId, env).value;
              r == SendReply(cfg, fetch(ChatRequest(cfg, message, false, env.fileExists)), env.codec)
  {
    match ChatPreflight(configs, configId, env)
    case Failure(msg) => SendErr(ErrorText(msg))
    case Success(cfg) => SendReply(cfg, fetch(ChatRequest(cfg, message, false, env.fileExists)), env.codec)
  }

  /** What `send-message` makes of the answer to its request: a rejected fetch
      is reported by `ChatFetchMessage`, a non-2xx status with its code and the
      whole body, and a 2xx body is parsed and its content extracted. */
  function SendReply(cfg: ApiConfig, outcome: FetchOutcome, codec: Codec): (r: SendResult)
    ensures r.SendErr? ==> r.error != ""
    ensures r.SendOk? ==> outcome.Responded? && IsOk(outcome.response.status)
                          && codec.parse(outcome.response.text) == Success(r.raw)
                          && ExtractContent(r.raw, codec) == Success(r.content)
    ensures outcome.Rejected? ==> r == SendErr(ChatFetchMessage(outcome.error, cfg.baseUrl))
    ensures outcome.Responded? && !IsOk(outcome.response.status) ==>
              r == SendErr(StatusErrorMessage(outcome.response.status, outcome.response.text))
    ensures outcome.Responded? && IsOk(outcome.response.status) && codec.parse(outcome.response.text).Failure? ==>
              r == SendErr(ErrorText(codec.parse(outcome.response.text).error))
    ensures outcome.Responded? && IsOk(outcome.response.status) && codec.parse(outcome.response.text) == Success(JNull) ==>
              r == SendErr(NullPropertyError("choices"))
    ensures outcome.Responded? && IsOk(outcome.response.status) && codec.parse(outcome.response.text).Success?
            && codec.parse(outcome.response.text).value != JNull ==>
              r == SendOk(ExtractContent(codec.parse(outcome.response.text).value, codec).value,
                          codec.parse(outcome.response.text).value)
  {
    match outcome
    case Rejected(e) => SendErr(ErrorText(ChatFetchMessage(e, cfg.baseUrl)))
    case Responded(resp) =>
      if !IsOk(resp.status) then SendErr(ErrorText(StatusErrorMessage(resp.status, resp.text)))
      else match codec.parse(resp.text)
        case Failure(msg) => SendErr(ErrorText(msg))
        case Success(data) =>
          match ExtractContent(data, codec)
          case Failure(msg) => SendErr(ErrorText(msg))
          case Success(content) => SendOk(content, data)
  }

  /** The pre-flight checks run before any network I/O: when they fail, what the
      network would have answered makes no difference. */
  lemma SendPreflightIgnoresNetwork(configs: seq<ApiConfig>, configId: string, message: string, env: Env, f1: Fetch, f2: Fetch)
    requires ChatPreflight(configs, configId, env).Failure?
    ensures SendMessage(configs, configId, message, env, f1) == SendMessage(configs, configId, message, env, f2)
    ensures SendMessage(configs, configId, message, env, f1).SendErr?
  {
  }

  /** Exactly one request is made, the non-streaming chat request: two networks
      that answer it alike give the same result. */
  lemma SendDependsOnlyOnChatRequest(configs: seq<ApiConfig>, configId: string, message: string, env: Env, f1: Fetch, f2: Fetch)
    requires ChatPreflight(configs, configId, env).Success?
    requires var cfg := ChatPreflight(configs, configId, env).value;
             f1(ChatRequest(cfg, message, false, env.fileExists)) == f2(ChatRequest(cfg, message, false, env.fileExists))
    ensures SendMessage(configs, configId, message, env, f1) == SendMessage(configs, configId, message, env, f2)
  {
  }

  // ---------------------------------------------------------------------------
  // send-message-stream
  // ---------------------------------------------------------------------------

  /** The renderer-bound events: `message-stream-chunk`, `-end` and `-error`. */
  datatype StreamEvent = Chunk(content: Json) | End | Error(message: string)

  datatype StreamResult = StreamOk | StreamErr(error: string)

  const NoReaderMessage := "Response body reader not available"

  /** One streaming call: the deltas sent as chunk events, the single terminal
      event (`End` or `Error`) sent after them, and the value returned. */
  datatype StreamRun = StreamRun(deltas: seq<Json>, terminal: StreamEvent, result: StreamResult)

  /** The events a run sends, in order. */
  function Events(run: StreamRun): (r: seq<StreamEvent>)
    ensures |r| == |run.deltas| + 1 && r[|r| - 1] == run.terminal
    ensures forall i :: 0 <= i < |run.deltas| ==> r[i] == Chunk(run.deltas[i])
  {
    seq(|run.deltas|, i requires 0 <= i < |run.deltas| => Chunk(run.deltas[i])) + [run.terminal]
  }

  /** A run that fails before any delta: the error event alone. */
  function FailedRun(msg: string): (r: StreamRun)
    ensures r.deltas == [] && r.terminal == Error(msg) && r.result == StreamErr(ErrorText(msg))
  {
    StreamRun([], Error(msg), StreamErr(ErrorText(msg)))
  }

  /** `send-message-stream`.  A failure before the body is read emits only the
      error event; otherwise each read is decoded on its own and its deltas
      are sent in line order, then `end`, or `error` when a read fails.  The returned error is
      the event's message, or the fallback text when that is empty. */
  function StreamMessage(configs: seq<ApiConfig>, configId: string, message: string, env: Env, fetch: Fetch): (r: StreamRun)
    ensures r.terminal.End? || r.terminal.Error?
    ensures r.terminal.End? <==> r.result == StreamOk
    ensures r.terminal.Error? ==> r.result == StreamErr(ErrorText(r.terminal.message))
    ensures ChatPreflight(configs, configId, env).Failure? ==> r == FailedRun(ChatPreflight(configs, configId, env).error)
    ensures r.deltas != [] ==> ChatPreflight(configs, configId, env).Success?
    ensures ChatPreflight(configs, configId, env).Success? ==>
              var cfg := ChatPreflight(configs, configId, env).value;
              match fetch(ChatRequest(cfg, message, true, env.fileExists))
              case Rejected(e) => r == FailedRun(ChatFetchMessage(e, cfg.baseUrl))
              case Responded(resp) =>
                && (!IsOk(resp.status) ==> r == FailedRun(StatusErrorMessage(resp.status, resp.text)))
                && (IsOk(resp.status) && resp.reader.None? ==> r == FailedRun(NoReaderMessage))
                && (IsOk(resp.status) && resp.reader.Some? ==> r == ReadRun(resp.reader.value, env.codec))
  {
    match ChatPreflight(configs, configId, env)
    case Failure(msg) => FailedRun(msg)
    case Success(cfg) =>
      match fetch(ChatRequest(cfg, message, true, env.fileExists))
      case Rejected(e) => FailedRun(ChatFetchMessage(e, cfg.baseUrl))
      case Responded(resp) =>
        if !IsOk(resp.status) then FailedRun(StatusErrorMessage(resp.status, resp.text))
        else match resp.reader
          case None => FailedRun(NoReaderMessage)
          case Some(rs) => ReadRun(rs, env.codec)
  }

  /** The loop over a readable body: the deltas of every read, then `end`, or
      `error` with the reason when a read fails. */
  function ReadRun(rs: ReadStream, codec: Codec): (r: StreamRun)
    ensures r.deltas == DecodeAsWritten(rs.chunks, codec)
    ensures rs.failure.None? <==> r.terminal == End
    ensures rs.failure.Some? ==> r.terminal == Error(rs.failure.value) && r.result == StreamErr(ErrorText(rs.failure.value))
    ensures rs.failure.None? ==> r.result == StreamOk
  {
    var deltas := DecodeAsWritten(rs.chunks, codec);
    match rs.failure
    case None => StreamRun(deltas, End, StreamOk)
    case Some(f) => StreamRun(deltas, Error(f), StreamErr(ErrorText(f)))
  }

  /** Exactly one terminal event is sent, and it is the last one: every event
      before it is a chunk. */
  lemma StreamTerminatesOnce(configs: seq<ApiConfig>, configId: string, message: string, env: Env, fetch: Fetch)
    ensures var events := Events(StreamMessage(configs, configId, message, env, fetch));
            && |events| >= 1
            && (events[|events| - 1].End? || events[|events| - 1].Error?)
            && forall i :: 0 <= i < |events| - 1 ==> events[i].Chunk?
  {
    var run := StreamMessage(configs, configId, message, env, fetch);
    var events := Events(run);
    assert forall i :: 0 <= i < |events| - 1 ==> events[i] == Chunk(run.deltas[i]);
  }

  /** The chunk events of a stream whose body is read are the deltas of its
      reads, each read decoded on its own, in read and line order. */
  lemma StreamChunksAreDecodedDeltas(configs: seq<ApiConfig>, configId: string, message: string, env: Env, fetch: Fetch)
    requires ChatPreflight(configs, configId, env).Success?
    requires var cfg := ChatPreflight(configs, configId, env).value;
             var out := fetch(ChatRequest(cfg, message, true, env.fileExists));
             out.Responded? && IsOk(out.response.status) && out.response.reader.Some?
    ensures var cfg := ChatPreflight(configs, configId, env).value;
            var rs := fetch(ChatRequest(cfg, message, true, env.fileExists)).response.reader.value;
            StreamMessage(configs, configId, message, env, fetch).deltas == DecodeAsWritten(rs.chunks, env.codec)
  {
    var cfg := ChatPreflight(configs, configId, env).value;
    var rs := fetch(ChatRequest(cfg, message, true, env.fileExists)).response.reader.value;
    assert StreamMessage(configs, configId, message, env, fetch) == ReadRun(rs, env.codec);
  }

  /** When every read ends at a line break, nothing is lost: the chunk events
      are the deltas of the whole body decoded at once, as the carry-over
      decoder would send them. */
  lemma AlignedStreamMatchesHandler(configs: seq<ApiConfig>, configId: string, message: string, env: Env, fetch: Fetch)
    requires ChatPreflight(configs, configId, env).Success?
    requires var cfg := ChatPreflight(configs, configId, env).value;
             var out := fetch(ChatRequest(cfg, message, true, env.fileExists));
             && out.Responded? && IsOk(out.response.status) && out.response.reader.Some?
             && var cs := out.response.reader.value.chunks;
                forall i :: 0 <= i < |cs| ==> |cs[i]| > 0 && cs[i][|cs[i]| - 1] == '\n'
    ensures var cfg := ChatPreflight(configs, configId, env).value;
            var rs := fetch(ChatRequest(cfg, message, true, env.fileExists)).response.reader.value;
            StreamMessage(configs, configId, message, env, fetch).deltas == DecodeStream(rs.chunks, env.codec)
  {
    var cfg := ChatPreflight(configs, configId, env).value;
    var rs := fetch(ChatRequest(cfg, message, true, env.fileExists)).response.reader.value;
    StreamChunksAreDecodedDeltas(configs, configId, message, env, fetch);
    AlignedChunksAgree(rs.chunks, env.codec);
  }

  // ---------------------------------------------------------------------------
  // test-connection
  // ---------------------------------------------------------------------------

  datatype TestResult = TestOk(message: string) | TestErr(error: string)

  const ConnectionOkMessage := "Connection successful! API is responding correctly."

  /** `test-connection`: the fixed probe request, no URL pre-check, classified
      fetch failures and statuses, and a 2xx body that must still parse. */
  function TestConnection(configs: seq<ApiConfig>, configId: string, env: Env, fetch: Fetch): (r: TestResult)
    ensures r.TestOk? ==> r.message == ConnectionOkMessage
    ensures Find(configs, configId).Failure? ==> r == TestErr(NotFoundMessage)
    ensures Find(configs, configId).Success? ==>
              var cfg := Find(configs, configId).value;
              match fetch(TestRequest(cfg, env.fileExists))
              case Rejected(e) => r == TestErr(ProbeFetchMessage(e, cfg.baseUrl))
              case Responded(resp) =>
                && (!IsOk(resp.status) ==> r == TestErr(ProbeStatusMessage(resp.status, resp.text, cfg.modelName, env.codec)))
                && (IsOk(resp.status) ==> (r.TestOk? <==> env.codec.parse(resp.text).Success?))
                && (IsOk(resp.status) && env.codec.parse(resp.text).Failure? ==>
                      r == TestErr(env.codec.parse(resp.text).error))
  {
    match Find(configs, configId)
    case Failure(msg) => TestErr(msg)
    case Success(cfg) =>
      match fetch(TestRequest(cfg, env.fileExists))
      case Rejected(e) => TestErr(ProbeFetchMessage(e, cfg.baseUrl))
      case Responded(resp) =>
        if !IsOk(resp.status) then TestErr(ProbeStatusMessage(resp.status, resp.text, cfg.modelName, env.codec))
        else match env.codec.parse(resp.text)
          case Failure(msg) => TestErr(msg)
          case Success(_) => TestOk(ConnectionOkMessage)
  }

  /** Unlike the chat handlers, test-connection never rejects a blank base URL
      itself: whatever the network answers for the probe request decides. */
  lemma TestConnectionSkipsUrlCheck(configs: seq<ApiConfig>, configId: string, env: Env, fetch: Fetch)
    requires Find(configs, configId).Success?
    requires IsBlank(Find(configs, configId).value.baseUrl)
    requires var cfg := Find(configs, configId).value;
             var out := fetch(TestRequest(cfg, env.fileExists));
             out.Responded? && IsOk(out.response.status) && env.codec.parse(out.response.text).Success?
    ensures TestConnection(configs, configId, env, fetch) == TestOk(ConnectionOkMessage)
    ensures ChatPreflight(configs, configId, env) == Failure(EmptyUrlMessage)
  {
  }

  // ---------------------------------------------------------------------------
  // list-models
  // ---------------------------------------------------------------------------

  datatype ModelsResult = ModelsOk(models: seq<Json>) | ModelsErr(error: string)

  /** `list-models`: a GET to the rewritten URL; a rejected fetch is reported
      with its raw message, any non-2xx status with one fixed hint. */
  function ListModels(configs: seq<ApiConfig>, configId: string, env: Env, fetch: Fetch): (r: ModelsResult)
    ensures Find(configs, configId).Failure? ==> r == ModelsErr(NotFoundMessage)
    ensures Find(configs, configId).Success? ==>
              var cfg := Find(configs, configId).value;
              match fetch(ModelsRequest(cfg, env.fileExists))
              case Rejected(e) => r == ModelsErr(e.message)
              case Responded(resp) =>
                && (!IsOk(resp.status) ==> r == ModelsErr(ModelsStatusMessage(resp.status)))
                && (IsOk(resp.status) && env.codec.parse(resp.text).Failure? ==>
                      r == ModelsErr(env.codec.parse(resp.text).error))
                && (IsOk(resp.status) && env.codec.parse(resp.text).Success? ==>
                      match NormaliseModels(env.codec.parse(resp.text).value)
                      case Success(ms) => r == ModelsOk(ms)
                      case Failure(msg) => r == ModelsErr(msg))
  {
    match Find(configs, configId)
    case Failure(msg) => ModelsErr(msg)
    case Success(cfg) =>
      match fetch(ModelsRequest(cfg, env.fileExists))
      case Rejected(e) => ModelsErr(e.message)
      case Responded(resp) =>
        if !IsOk(resp.status) then ModelsErr(ModelsStatusMessage(resp.status))
        else match env.codec.parse(resp.text)
          case Failure(msg) => ModelsErr(msg)
          case Success(data) =>
            match NormaliseModels(data)
            case Success(ms) => ModelsOk(ms)
            case Failure(msg) => ModelsErr(msg)
  }

  /** list-models reads neither the status text nor the body of a failed
      response: every non-2xx answer with the same status gives the same error. */
  lemma ListModelsIgnoresErrorBody(configs: seq<ApiConfig>, configId: string, env: Env, f1: Fetch, f2: Fetch)
    requires Find(configs, configId).Success?
    requires var req := ModelsRequest(Find(configs, configId).value, env.fileExists);
             && f1(req).Responded? && f2(req).Responded?
             && f1(req).response.status == f2(req).response.status
             && !IsOk(f1(req).response.status)
    ensures ListModels(configs, configId, env, f1) == ListModels(configs, configId, env, f2)
  {
  }
}
