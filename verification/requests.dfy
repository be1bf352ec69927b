/**
 * Everything the gateway decides about an outgoing request before any
 * network I/O: the base-URL pre-check, the JSON body, the header object, the
 * HTTPS agent options and the models-listing URL.
 */
module Requests {
  import opened Wrappers
  import opened Text
  import opened Record
  import opened Json
  import opened ConfigStore

  // ---------------------------------------------------------------------------
  // Base-URL pre-check (send and send-stream only)
  // ---------------------------------------------------------------------------

  const EmptyUrlMessage := "API Base URL is empty. Please configure a valid URL in Settings."

  function InvalidUrlMessage(url: string): string {
    "Invalid API URL: \"" + url + "\". Please ensure it includes the protocol (e.g., https://)"
  }

  /** The pre-check run before a chat request is built.  `isUrl` stands for
      "`new URL(s)` does not throw". */
  function CheckBaseUrl(baseUrl: string, isUrl: string -> bool): (r: Result<string, string>)
    ensures r.Success? <==> !IsBlank(baseUrl) && isUrl(baseUrl)
    ensures r.Success? ==> r.value == baseUrl
    ensures IsBlank(baseUrl) ==> r == Failure(EmptyUrlMessage)
    ensures !IsBlank(baseUrl) && !isUrl(baseUrl) ==> r == Failure(InvalidUrlMessage(baseUrl))
  {
    TrimEmptyIffBlank(baseUrl);
    if baseUrl == "" || Trim(baseUrl) == "" then Failure(EmptyUrlMessage)
    else if !isUrl(baseUrl) then Failure(InvalidUrlMessage(baseUrl))
    else Success(baseUrl)
  }

  // ---------------------------------------------------------------------------
  // Bodies
  // ---------------------------------------------------------------------------

  /** `{ role: 'user', content }`. */
  function UserMessage(content: string): Json {
    JObj([("role", JStr("user")), ("content", JStr(content))])
  }

  /** The properties written by the object literal before the spread. */
  function ChatBodyBase(modelName: string, message: string, streaming: bool): Fields<Json> {
    [("model", JStr(modelName)), ("messages", JArr([UserMessage(message)]))]
      + (if streaming then [("stream", JBool(true))] else [])
  }

  /** The value the literal part gives property `k`, if it writes it at all. */
  function ChatBodyDefault(modelName: string, message: string, streaming: bool, k: string): Option<Json> {
    if k == "model" then Some(JStr(modelName))
    else if k == "messages" then Some(JArr([UserMessage(message)]))
    else if k == "stream" && streaming then Some(JBool(true))
    else None
  }

  /** The properties of the literal part: their order, values, and nothing else. */
  lemma ChatBodyBaseShape(modelName: string, message: string, streaming: bool)
    ensures var base := ChatBodyBase(modelName, message, streaming);
            && UniqueKeys(base)
            && Keys(base) == (if streaming then ["model", "messages", "stream"] else ["model", "messages"])
            && forall k :: Lookup(base, k) == ChatBodyDefault(modelName, message, streaming, k)
  {
    var base := ChatBodyBase(modelName, message, streaming);
    var tail := base[1..];
    assert base[0].0 == "model" && tail[0].0 == "messages";
    if streaming {
      assert Keys(base) == ["model", "messages", "stream"];
      assert tail[1..] == [("stream", JBool(true))];
    } else {
      assert Keys(base) == ["model", "messages"];
      assert tail[1..] == [];
    }
  }

  /** The value a property ends with after `{...base, ...params}`. */
  function Overridden<V>(params: Fields<V>, k: string, default: Option<V>): Option<V> {
    if LastBinding(params, k).Some? then LastBinding(params, k) else default
  }

  /** The chat request body `{ model, messages: [user message], stream?: true, ...customParams }`:
      the custom parameters are spread LAST, so any of them, `stream` included,
      overrides the fixed properties, which nevertheless keep their leading positions. */
  function ChatBody(modelName: string, message: string, streaming: bool, customParams: Fields<Json>): (r: Fields<Json>)
    ensures forall k :: Lookup(r, k) == Overridden(customParams, k, ChatBodyDefault(modelName, message, streaming, k))
    ensures |Keys(r)| >= 2 && Keys(r)[0] == "model" && Keys(r)[1] == "messages"
    ensures streaming ==> |Keys(r)| >= 3 && Keys(r)[2] == "stream"
    ensures UniqueKeys(r)
  {
    var base := ChatBodyBase(modelName, message, streaming);
    var lead := if streaming then ["model", "messages", "stream"] else ["model", "messages"];
    ChatBodyBaseShape(modelName, message, streaming);
    SpreadOverBase(base, customParams, lead);
    var r := Assign(base, customParams);
    assert forall i :: 0 <= i < |lead| ==> Keys(r)[i] == lead[i];
    r
  }

  /** Spreading parameters over a base object whose leading keys are `lead`:
      those keys stay in front, every lookup is the parameter's last binding
      or else the base's, and unique keys stay unique. */
  lemma SpreadOverBase<V>(base: Fields<V>, params: Fields<V>, lead: seq<string>)
    requires UniqueKeys(base) && |lead| <= |base| && Keys(base)[..|lead|] == lead
    ensures var r := Assign(base, params);
            && |Keys(r)| >= |lead| && Keys(r)[..|lead|] == lead
            && UniqueKeys(r)
            && forall k :: Lookup(r, k) == Overridden(params, k, Lookup(base, k))
  {
    var r := Assign(base, params);
    assert Keys(r)[..|lead|] == Keys(r)[..|base|][..|lead|];
  }

  /** The fixed test-connection body: prompt "Hi", `max_tokens: 5`, and no custom parameters. */
  function TestBody(modelName: string): (r: Fields<Json>)
    ensures Lookup(r, "model") == Some(JStr(modelName))
    ensures Lookup(r, "messages") == Some(JArr([UserMessage("Hi")]))
    ensures Lookup(r, "max_tokens") == Some(JNum(5.0))
    ensures Lookup(r, "stream").None?
  {
    var r := [("model", JStr(modelName)), ("messages", JArr([UserMessage("Hi")])), ("max_tokens", JNum(5.0))];
    assert Keys(r) == ["model", "messages", "max_tokens"];
    assert r[1..][1..] == [("max_tokens", JNum(5.0))];
    r
  }

  // ---------------------------------------------------------------------------
  // Headers
  // ---------------------------------------------------------------------------

  function Bearer(apiKey: string): string {
    "Bearer " + apiKey
  }

  /** The value the fixed part of the chat headers gives header `k`. */
  function ChatHeaderDefault(apiKey: string, k: string): Option<string> {
    if k == "Content-Type" then Some("application/json")
    else if k == "Authorization" then Some(Bearer(apiKey))
    else None
  }

  /** The fixed chat headers: their order, values, and nothing else. */
  lemma ChatHeaderBaseShape(apiKey: string)
    ensures var base := [("Content-Type", "application/json"), ("Authorization", Bearer(apiKey))];
            && UniqueKeys(base)
            && Keys(base) == ["Content-Type", "Authorization"]
            && forall k :: Lookup(base, k) == ChatHeaderDefault(apiKey, k)
  {
    var base := [("Content-Type", "application/json"), ("Authorization", Bearer(apiKey))];
    assert Keys(base) == ["Content-Type", "Authorization"];
    assert base[1..][1..] == [];
  }

  /** `{ 'Content-Type': 'application/json', Authorization: 'Bearer <key>', ...customHeaders }`:
      the two fixed headers always come first, and a custom header of the same
      name replaces their value. */
  function ChatHeaders(apiKey: string, customHeaders: Fields<string>): (r: Fields<string>)
    ensures |Keys(r)| >= 2 && Keys(r)[0] == "Content-Type" && Keys(r)[1] == "Authorization"
    ensures forall k :: Lookup(r, k) == Overridden(customHeaders, k, ChatHeaderDefault(apiKey, k))
  {
    var base := [("Content-Type", "application/json"), ("Authorization", Bearer(apiKey))];
    var lead := ["Content-Type", "Authorization"];
    ChatHeaderBaseShape(apiKey);
    SpreadOverBase(base, customHeaders, lead);
    var r := Assign(base, customHeaders);
    assert forall i :: 0 <= i < |lead| ==> Keys(r)[i] == lead[i];
    r
  }

  /** The list-models headers: Bearer authorization first, then the custom
      headers, which may replace it. */
  function ModelsHeaders(apiKey: string, customHeaders: Fields<string>): (r: Fields<string>)
    ensures |Keys(r)| >= 1 && Keys(r)[0] == "Authorization"
    ensures forall k :: Lookup(r, k) == Overridden(customHeaders, k, if k == "Authorization" then Some(Bearer(apiKey)) else None)
  {
    var base := [("Authorization", Bearer(apiKey))];
    assert Keys(base) == ["Authorization"];
    SpreadOverBase(base, customHeaders, ["Authorization"]);
    var r := Assign(base, customHeaders);
    assert Keys(r)[..1][0] == "Authorization";
    r
  }

  /** Unlike the chat headers, the list-models headers carry no `Content-Type`
      unless a custom header supplies one; every other header agrees. */
  lemma ModelsHeadersOmitContentType(apiKey: string, customHeaders: Fields<string>)
    ensures Lookup(ModelsHeaders(apiKey, customHeaders), "Content-Type") == LastBinding(customHeaders, "Content-Type")
    ensures Lookup(ChatHeaders(apiKey, customHeaders), "Content-Type").Some?
    ensures forall k :: k != "Content-Type" ==>
              Lookup(ModelsHeaders(apiKey, customHeaders), k) == Lookup(ChatHeaders(apiKey, customHeaders), k)
  {
  }

  // ---------------------------------------------------------------------------
  // HTTPS agent options
  // ---------------------------------------------------------------------------

  /** The options given to `new https.Agent`.  `ca` names the file whose
      contents `readFileSync` loads; there is no proxy field. */
  datatype AgentOptions = AgentOptions(rejectUnauthorized: Option<bool>, ca: Option<string>)

  /** The options object filled in once an agent is to be created. */
  function AgentOptionsFor(cfg: ApiConfig, fileExists: string -> bool): AgentOptions {
    AgentOptions(
      if cfg.ignoreSsl then Some(false) else None,
      if cfg.caCertPath != "" && fileExists(cfg.caCertPath) then Some(cfg.caCertPath) else None)
  }

  /** The agent of send and send-stream: created when `ignoreSsl`, `caCertPath`
      or `proxyUrl` is set.  The proxy URL only triggers the creation. */
  function ChatAgent(cfg: ApiConfig, fileExists: string -> bool): (r: Option<AgentOptions>)
    ensures r.Some? <==> cfg.ignoreSsl || cfg.caCertPath != "" || cfg.proxyUrl != ""
    ensures r.Some? ==> (r.value.rejectUnauthorized == Some(false) <==> cfg.ignoreSsl)
    ensures r.Some? ==> (r.value.rejectUnauthorized.None? <==> !cfg.ignoreSsl)
    ensures r.Some? ==> (r.value.ca.Some? <==> cfg.caCertPath != "" && fileExists(cfg.caCertPath))
    ensures r.Some? && r.value.ca.Some? ==> r.value.ca.value == cfg.caCertPath
  {
    if cfg.ignoreSsl || cfg.caCertPath != "" || cfg.proxyUrl != "" then Some(AgentOptionsFor(cfg, fileExists))
    else None
  }

  /** The agent of test-connection and list-models: the proxy URL is not even a trigger. */
  function ProbeAgent(cfg: ApiConfig, fileExists: string -> bool): (r: Option<AgentOptions>)
    ensures r.Some? <==> cfg.ignoreSsl || cfg.caCertPath != ""
    ensures r.Some? ==> (r.value.rejectUnauthorized == Some(false) <==> cfg.ignoreSsl)
    ensures r.Some? ==> (r.value.rejectUnauthorized.None? <==> !cfg.ignoreSsl)
    ensures r.Some? ==> (r.value.ca.Some? <==> cfg.caCertPath != "" && fileExists(cfg.caCertPath))
    ensures r.Some? && r.value.ca.Some? ==> r.value.ca.value == cfg.caCertPath
  {
    if cfg.ignoreSsl || cfg.caCertPath != "" then Some(AgentOptionsFor(cfg, fileExists))
    else None
  }

  /** The proxy URL's value never reaches the agent: any two non-empty proxy
      URLs give the same options, and a proxy alone yields a default agent. */
  lemma ProxyValueIgnored(cfg: ApiConfig, p: string, fileExists: string -> bool)
    requires cfg.proxyUrl != "" && p != ""
    ensures ChatAgent(cfg.(proxyUrl := p), fileExists) == ChatAgent(cfg, fileExists)
    ensures !cfg.ignoreSsl && cfg.caCertPath == "" ==> ChatAgent(cfg, fileExists) == Some(AgentOptions(None, None))
  {
  }

  /** The two agent choices differ only for a configuration whose sole trigger is the proxy URL. */
  lemma ProbeAgentAgreesWithChat(cfg: ApiConfig, fileExists: string -> bool)
    ensures ProbeAgent(cfg, fileExists) != ChatAgent(cfg, fileExists)
            <==> cfg.proxyUrl != "" && !cfg.ignoreSsl && cfg.caCertPath == ""
  {
  }

  // ---------------------------------------------------------------------------
  // Requests
  // ---------------------------------------------------------------------------

  /** What is handed to `fetch`: the URL and the options object.  The body is the
      JSON tree before `JSON.stringify`. */
  datatype HttpRequest = HttpRequest(
    url: string,
    verb: string,
    headers: Fields<string>,
    body: Option<Json>,
    agent: Option<AgentOptions>)

  /** The POST of send (`streaming` false) and send-stream (`streaming` true). */
  function ChatRequest(cfg: ApiConfig, message: string, streaming: bool, fileExists: string -> bool): HttpRequest {
    HttpRequest(cfg.baseUrl, "POST", ChatHeaders(cfg.apiKey, cfg.customHeaders),
                Some(JObj(ChatBody(cfg.modelName, message, streaming, cfg.customParams))),
                ChatAgent(cfg, fileExists))
  }

  /** The POST of test-connection. */
  function TestRequest(cfg: ApiConfig, fileExists: string -> bool): HttpRequest {
    HttpRequest(cfg.baseUrl, "POST", ChatHeaders(cfg.apiKey, cfg.customHeaders),
                Some(JObj(TestBody(cfg.modelName))), ProbeAgent(cfg, fileExists))
  }

  /** The GET of list-models. */
  function ModelsRequest(cfg: ApiConfig, fileExists: string -> bool): HttpRequest {
    HttpRequest(ModelsUrl(cfg.baseUrl), "GET", ModelsHeaders(cfg.apiKey, cfg.customHeaders),
                None, ProbeAgent(cfg, fileExists))
  }

  // ---------------------------------------------------------------------------
  // Models URL
  // ---------------------------------------------------------------------------

  /** `baseUrl.replace('/chat/completions', '/models').replace('/v1/v1', '/v1')`:
      each replacement rewrites only the first occurrence, wherever it is. */
  function ModelsUrl(baseUrl: string): string {
    ReplaceFirst(ReplaceFirst(baseUrl, "/chat/completions", "/models"), "/v1/v1", "/v1")
  }

  /** A URL containing neither pattern comes back unchanged. */
  lemma ModelsUrlUnchanged(url: string)
    requires forall j :: 0 <= j ==> !OccursAt(url, "/chat/completions", j)
    requires forall j :: 0 <= j ==> !OccursAt(url, "/v1/v1", j)
    ensures ModelsUrl(url) == url
  {
  }

  /** The documented rewrite of a `/v1` chat-completions URL. */
  lemma ModelsUrlPlainExample()
    ensures ModelsUrl("https://host/v1/chat/completions") == "https://host/v1/models"
  {
    PlainChatSegment();
    NoDoubledSegment();
  }

  /** The doubled-base rewrite: the `/v1/v1` left by the first replacement
      collapses, giving the same models endpoint as the plain base. */
  lemma ModelsUrlDoubledExample()
    ensures ModelsUrl("https://host/v1/v1/chat/completions") == "https://host/v1/models"
  {
    DoubledChatSegment();
    DoubledSegment();
  }

  lemma PlainChatSegment()
    ensures ReplaceFirst("https://host/v1/chat/completions", "/chat/completions", "/models")
            == "https://host/v1/models"
  {
    PlainChatSegmentAt("https://host/v1/chat/completions");
  }

  lemma PlainChatSegmentAt(a: string)
    requires a == "https://host/v1/chat/completions"
    ensures ReplaceFirst(a, "/chat/completions", "/models") == "https://host/v1/models"
  {
    NoChatSegmentBefore15();
    PlainChatPieces(a);
    ReplaceFirstAt(a, "/chat/completions", "/models", 15);
  }

  lemma PlainChatPieces(a: string)
    requires a == "https://host/v1/chat/completions"
    ensures OccursAt(a, "/chat/completions", 15)
    ensures a[..15] + "/models" + a[32..] == "https://host/v1/models"
  {
    assert a[..15] == "https://host/v1" && a[32..] == [];
  }

  lemma NoChatSegmentBefore15()
    ensures forall j :: 0 <= j < 15 ==> !OccursAt("https://host/v1/chat/completions", "/chat/completions", j)
  {
    var a := "https://host/v1/chat/completions";
    forall j | 0 <= j < 15 ensures !OccursAt(a, "/chat/completions", j) {
      if a[j] != '/' {
        MismatchNoOccurrence(a, "/chat/completions", j, 0);
      } else {
        MismatchNoOccurrence(a, "/chat/completions", j, 1);
      }
    }
  }

  lemma NoDoubledSegment()
    ensures ReplaceFirst("https://host/v1/models", "/v1/v1", "/v1") == "https://host/v1/models"
  {
    NoDoubledSegmentAt("https://host/v1/models");
  }

  lemma NoDoubledSegmentAt(a1: string)
    requires a1 == "https://host/v1/models"
    ensures ReplaceFirst(a1, "/v1/v1", "/v1") == a1
  {
    NoDoubledSegmentIn();
  }

  lemma NoDoubledSegmentIn()
    ensures forall j :: 0 <= j ==> !OccursAt("https://host/v1/models", "/v1/v1", j)
  {
    var a1 := "https://host/v1/models";
    forall j | 0 <= j ensures !OccursAt(a1, "/v1/v1", j) {
      if j + 6 > |a1| || a1[j] != '/' {
        MismatchNoOccurrence(a1, "/v1/v1", j, 0);
      } else if a1[j + 1] != 'v' {
        MismatchNoOccurrence(a1, "/v1/v1", j, 1);
      } else {
        MismatchNoOccurrence(a1, "/v1/v1", j, 4);
      }
    }
  }

  lemma DoubledChatSegment()
    ensures ReplaceFirst("https://host/v1/v1/chat/completions", "/chat/completions", "/models")
            == "https://host/v1/v1/models"
  {
    DoubledChatSegmentAt("https://host/v1/v1/chat/completions");
  }

  lemma DoubledChatSegmentAt(b: string)
    requires b == "https://host/v1/v1/chat/completions"
    ensures ReplaceFirst(b, "/chat/completions", "/models") == "https://host/v1/v1/models"
  {
    NoChatSegmentBefore18();
    DoubledChatPieces(b);
    ReplaceFirstAt(b, "/chat/completions", "/models", 18);
  }

  lemma DoubledChatPieces(b: string)
    requires b == "https://host/v1/v1/chat/completions"
    ensures OccursAt(b, "/chat/completions", 18)
    ensures b[..18] + "/models" + b[35..] == "https://host/v1/v1/models"
  {
    assert b[..18] == "https://host/v1/v1" && b[35..] == [];
  }

  lemma NoChatSegmentBefore18()
    ensures forall j :: 0 <= j < 18 ==> !OccursAt("https://host/v1/v1/chat/completions", "/chat/completions", j)
  {
    var b := "https://host/v1/v1/chat/completions";
    forall j | 0 <= j < 18 ensures !OccursAt(b, "/chat/completions", j) {
      if b[j] != '/' {
        MismatchNoOccurrence(b, "/chat/completions", j, 0);
      } else {
        MismatchNoOccurrence(b, "/chat/completions", j, 1);
      }
    }
  }

  lemma DoubledSegment()
    ensures ReplaceFirst("https://host/v1/v1/models", "/v1/v1", "/v1") == "https://host/v1/models"
  {
    DoubledSegmentAt("https://host/v1/v1/models");
  }

  lemma DoubledSegmentAt(b1: string)
    requires b1 == "https://host/v1/v1/models"
    ensures ReplaceFirst(b1, "/v1/v1", "/v1") == "https://host/v1/models"
  {
    NoDoubledSegmentBefore12();
    DoubledSegmentAt12();
    ReplaceFirstAt(b1, "/v1/v1", "/v1", 12);
    DoubledSegmentPieces(b1);
  }

  lemma DoubledSegmentPieces(b1: string)
    requires b1 == "https://host/v1/v1/models"
    ensures b1[..12] + "/v1" + b1[18..] == "https://host/v1/models"
  {
    assert b1[..12] == "https://host";
    assert b1[18..] == "/models";
  }

  lemma DoubledSegmentAt12()
    ensures OccursAt("https://host/v1/v1/models", "/v1/v1", 12)
  {
  }

  lemma NoDoubledSegmentBefore12()
    ensures forall j :: 0 <= j < 12 ==> !OccursAt("https://host/v1/v1/models", "/v1/v1", j)
  {
    var b1 := "https://host/v1/v1/models";
    forall j | 0 <= j < 12 ensures !OccursAt(b1, "/v1/v1", j) {
      if b1[j] != '/' {
        MismatchNoOccurrence(b1, "/v1/v1", j, 0);
      } else {
        MismatchNoOccurrence(b1, "/v1/v1", j, 1);
      }
    }
  }
}
