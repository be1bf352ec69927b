/**
 * How the gateway turns a failed `fetch` or a non-2xx status into the
 * message the user reads.  The chat handlers (send, send-stream) and the
 * probe handlers (test-connection, list-models) classify differently.
 */
module Diagnostics {
  import opened Wrappers
  import opened Text
  import opened Json

  // ---------------------------------------------------------------------------
  // Rejected fetches
  // ---------------------------------------------------------------------------

  /** The `cause` of a fetch error: its `message` ("" when absent or empty) and
      its `String(cause)` rendering, used when the message is falsy. */
  datatype FetchCause = FetchCause(message: string, text: string)

  /** A rejected `fetch`: the system error `code` ("" when absent), the
      `message`, and the optional `cause`. */
  datatype FetchError = FetchError(code: string, message: string, cause: Option<FetchCause>)

  /** What a failure is reported as. */
  datatype NetClass = Dns | Refused | TimedOut | Certificate | Unclassified

  const DnsCode := "ENOTFOUND"
  const RefusedCode := "ECONNREFUSED"
  const TimeoutCode := "ETIMEDOUT"
  const LeafSignatureCode := "UNABLE_TO_VERIFY_LEAF_SIGNATURE"
  const NetworkPrefix := "Network error: "

  /** The chat handlers recognise three codes; everything else is unclassified. */
  function ChatClass(e: FetchError): (c: NetClass)
    ensures c != Certificate
    ensures c == Dns <==> e.code == DnsCode
    ensures c == Refused <==> e.code == RefusedCode
    ensures c == TimedOut <==> e.code == TimeoutCode
    ensures c == Unclassified <==> e.code !in {DnsCode, RefusedCode, TimeoutCode}
  {
    if e.code == DnsCode then Dns
    else if e.code == RefusedCode then Refused
    else if e.code == TimeoutCode then TimedOut
    else Unclassified
  }

  /** The probe handler also recognises certificate failures, by code or by the
      word "certificate" anywhere in the message, after the three codes. */
  function ProbeClass(e: FetchError): (c: NetClass)
    ensures ChatClass(e) != Unclassified ==> c == ChatClass(e)
    ensures c == Certificate <==> ChatClass(e) == Unclassified
                                  && (e.code == LeafSignatureCode || Contains(e.message, "certificate"))
  {
    if e.code == DnsCode then Dns
    else if e.code == RefusedCode then Refused
    else if e.code == TimeoutCode then TimedOut
    else if e.code == LeafSignatureCode || Contains(e.message, "certificate") then Certificate
    else Unclassified
  }

  /** `\nCause: <cause.message || cause>` when there is a cause. */
  function CauseSuffix(cause: Option<FetchCause>): string {
    match cause
    case None => ""
    case Some(c) => "\nCause: " + (if c.message != "" then c.message else c.text)
  }

  // Fixed parts of the fetch-failure messages, around the base URL.
  const ChatDnsHead := "Cannot reach "
  const ChatDnsTail := ". DNS lookup failed. Please check the URL."
  const ChatRefusedHead := "Connection refused to "
  const ChatRefusedTail := ". Is the server running?"
  const ChatTimeoutHead := "Connection to "
  const ChatTimeoutTail := " timed out."
  const ProbeDnsTail := ". DNS lookup failed. Check URL or VPN connection."
  const ProbeRefusedHead := "Connection refused. " + "Is the server running at "
  const ProbeTimeoutMessage := "Connection timeout. " + "Server may be slow or unreachable."
  const CertificateHead := "SSL Certificate error. Enable \""
  const CertificateTail := "\" in settings or add custom CA certificate."

  /** The message the send and send-stream handlers throw for a rejected fetch. */
  function ChatFetchMessage(e: FetchError, url: string): (r: string)
    ensures ChatClass(e) == Unclassified <==> StartsWith(r, NetworkPrefix)
    ensures ChatClass(e) == Unclassified ==> r == NetworkPrefix + e.message + CauseSuffix(e.cause)
    ensures ChatClass(e) != Unclassified ==> Contains(r, url)
    ensures ChatClass(e) == Dns ==> r == ChatDnsHead + url + ChatDnsTail
    ensures ChatClass(e) == Refused ==> r == ChatRefusedHead + url + ChatRefusedTail
    ensures ChatClass(e) == TimedOut ==> r == ChatTimeoutHead + url + ChatTimeoutTail
  {
    match ChatClass(e)
    case Dns =>
      InfixOccurs(ChatDnsHead, url, ChatDnsTail);
      Framed(ChatDnsHead, url, ChatDnsTail)
    case Refused =>
      InfixOccurs(ChatRefusedHead, url, ChatRefusedTail);
      Framed(ChatRefusedHead, url, ChatRefusedTail)
    case TimedOut =>
      InfixOccurs(ChatTimeoutHead, url, ChatTimeoutTail);
      Framed(ChatTimeoutHead, url, ChatTimeoutTail)
    case Unclassified =>
      NetworkPrefix + e.message + CauseSuffix(e.cause)
  }

  /** `head + url + tail`, where the head alone decides the leading characters. */
  function Framed(head: string, url: string, tail: string): (r: string)
    ensures |r| >= |head| && r[..|head|] == head
    ensures |head| > 0 && |NetworkPrefix| > 0 && head[0] != NetworkPrefix[0] ==> !StartsWith(r, NetworkPrefix)
  {
    var r := head + url + tail;
    assert r[..|head|] == head;
    assert |head| > 0 ==> r[0] == head[0];
    if |head| > 0 && head[0] != NetworkPrefix[0] then
      NotPrefixed(r, NetworkPrefix);
      r
    else r
  }

  /** The chat message names the failure: two failures of different classes are
      never reported with the same text. */
  lemma ChatFetchMessageDistinguishes(e1: FetchError, e2: FetchError, url: string)
    requires ChatClass(e1) != ChatClass(e2)
    ensures ChatFetchMessage(e1, url) != ChatFetchMessage(e2, url)
  {
    var m1, m2 := ChatFetchMessage(e1, url), ChatFetchMessage(e2, url);
    assert m1[..13] == HeadOf(ChatClass(e1), e1)[..13];
    assert m2[..13] == HeadOf(ChatClass(e2), e2)[..13];
    HeadsDiffer(ChatClass(e1), e1, ChatClass(e2), e2);
  }

  /** The first characters of each chat message, the error's own text for unclassified ones. */
  function HeadOf(c: NetClass, e: FetchError): (h: string)
    ensures |h| >= 13
  {
    match c
    case Dns => ChatDnsHead
    case Refused => ChatRefusedHead
    case TimedOut => ChatTimeoutHead
    case _ => NetworkPrefix
  }

  /** The heads differ within their first 13 characters. */
  lemma HeadsDiffer(c1: NetClass, e1: FetchError, c2: NetClass, e2: FetchError)
    requires c1 != c2 && c1 != Certificate && c2 != Certificate
    ensures HeadOf(c1, e1)[..13] != HeadOf(c2, e2)[..13]
  {
    var h1, h2 := HeadOf(c1, e1), HeadOf(c2, e2);
    assert c1 == Dns ==> h1[1] == 'a';
    assert c2 == Dns ==> h2[1] == 'a';
    assert c1 == Refused ==> h1[1] == 'o' && h1[11] == 'r';
    assert c2 == Refused ==> h2[1] == 'o' && h2[11] == 'r';
    assert c1 == TimedOut ==> h1[1] == 'o' && h1[11] == 't';
    assert c2 == TimedOut ==> h2[1] == 'o' && h2[11] == 't';
    assert c1 == Unclassified ==> h1[1] == 'e';
    assert c2 == Unclassified ==> h2[1] == 'e';
    assert h1[..13][1] == h1[1] && h2[..13][1] == h2[1];
    assert h1[..13][11] == h1[11] && h2[..13][11] == h2[11];
  }

  /** The message test-connection throws for a rejected fetch: no cause is
      appended, the timeout text does not name the URL, and certificate
      failures get configuration advice. */
  function ProbeFetchMessage(e: FetchError, url: string): (r: string)
    ensures ProbeClass(e) == Unclassified <==> StartsWith(r, NetworkPrefix)
    ensures ProbeClass(e) == Unclassified ==> r == NetworkPrefix + e.message
    ensures ProbeClass(e) in {Dns, Refused} ==> Contains(r, url)
    ensures ProbeClass(e) == Certificate ==> Contains(r, "Ignore SSL")
    ensures ProbeClass(e) == Dns ==> r == ChatDnsHead + url + ProbeDnsTail
    ensures ProbeClass(e) == Refused ==> r == ProbeRefusedHead + url + "?"
    ensures ProbeClass(e) == TimedOut ==> r == ProbeTimeoutMessage
    ensures ProbeClass(e) == Certificate ==> r == CertificateHead + "Ignore SSL" + CertificateTail
  {
    match ProbeClass(e)
    case Dns =>
      InfixOccurs(ChatDnsHead, url, ProbeDnsTail);
      Framed(ChatDnsHead, url, ProbeDnsTail)
    case Refused =>
      InfixOccurs(ProbeRefusedHead, url, "?");
      Framed(ProbeRefusedHead, url, "?")
    case TimedOut =>
      Framed(ProbeTimeoutMessage, "", "")
    case Certificate =>
      InfixOccurs(CertificateHead, "Ignore SSL", CertificateTail);
      Framed(CertificateHead, "Ignore SSL", CertificateTail)
    case Unclassified =>
      NetworkPrefix + e.message
  }

  /** Where the two classifications both recognise a failure, a certificate
      problem aside, the probe is at least as specific as the chat handlers. */
  lemma ProbeRefinesChat(e: FetchError)
    ensures ChatClass(e) == Unclassified ==> ProbeClass(e) in {Certificate, Unclassified}
    ensures e.code == LeafSignatureCode ==> ProbeClass(e) == Certificate && ChatClass(e) == Unclassified
  {
  }

  // ---------------------------------------------------------------------------
  // Non-2xx statuses
  // ---------------------------------------------------------------------------

  /** `response.ok`. */
  predicate IsOk(status: nat) {
    200 <= status <= 299
  }

  const ApiErrorPrefix := "API Error ("

  /** `API Error (<status>): <text>`, thrown by send and send-stream on any non-2xx status. */
  function StatusErrorMessage(status: nat, text: string): (r: string)
    ensures StartsWith(r, ApiErrorPrefix)
    ensures |r| == |ApiErrorPrefix| + |NatToDecimal(status)| + 3 + |text|
    ensures r[|ApiErrorPrefix|..|ApiErrorPrefix| + |NatToDecimal(status)|] == NatToDecimal(status)
    ensures r[|ApiErrorPrefix| + |NatToDecimal(status)|..|ApiErrorPrefix| + |NatToDecimal(status)| + 3] == "): "
    ensures r[|r| - |text|..] == text
  {
    var d := NatToDecimal(status);
    var r := ApiErrorPrefix + d + "): " + text;
    assert r[..|ApiErrorPrefix|] == ApiErrorPrefix;
    assert r[|ApiErrorPrefix|..|ApiErrorPrefix| + |d|] == d;
    assert r[|ApiErrorPrefix| + |d|..|ApiErrorPrefix| + |d| + 3] == "): ";
    r
  }

  /** The status and the body text can both be read back from the message. */
  lemma {:induction false} StatusErrorMessageInjective(s1: nat, t1: string, s2: nat, t2: string)
    requires StatusErrorMessage(s1, t1) == StatusErrorMessage(s2, t2)
    ensures s1 == s2 && t1 == t2
  {
    var d1, d2 := NatToDecimal(s1), NatToDecimal(s2);
    var m := StatusErrorMessage(s1, t1);
    var p := |ApiErrorPrefix|;
    assert m == ApiErrorPrefix + d1 + "): " + t2[..0] + t1;
    assert m == ApiErrorPrefix + d2 + "): " + t2;
    assert m[p + |d1|] == ')';
    assert m[p + |d2|] == ')';
    assert d1 == m[p..p + |d1|] == d2;
    assert t1 == m[p + |d1| + 3..] == t2;
  }

  /** How many characters of the body a probe message quotes at most. */
  const QuoteLimit: nat := 200

  const NotFoundAdvice := "404 Not Found. Check if the URL is correct. Expected format: https://host/v1/chat/completions"
  const UnauthorizedAdvice := "401 Unauthorized. Check your API key."
  const ForbiddenAdvice := "403 Forbidden. Check your API key and permissions."
  const ServerErrorAdvice := "500 Server Error. The API server encountered an error."
  const BadRequestPrefix := "400 Bad Request: "

  function InvalidModelMessage(modelName: string): string {
    "400 Invalid Model. The model \"" + modelName + "\" doesn't exist on this server. Try listing available models or check with your team."
  }

  /** The `error` property of a 400 body names the model: a string containing
      "model", or an array holding the string "model" (`Array.prototype.includes`). */
  predicate ErrorMentionsModel(err: Json) {
    match err
    case JStr(s) => Contains(s, "model")
    case JArr(items) => JStr("model") in items
    case _ => false
  }

  /** A 400 body whose `error` names the model: the one case test-connection
      reports as an invalid model. */
  predicate ModelRejected(text: string, codec: Codec) {
    && codec.parse(text).Success?
    && codec.parse(text).value != JNull
    && IsTruthy(Prop(codec.parse(text).value, "error"))
    && ErrorMentionsModel(Prop(codec.parse(text).value, "error").value)
  }

  /** What follows "400 Bad Request: " when the model is not the problem, or
      `None` when it is.  A body that does not parse, parses to `null`, or
      carries an `error` that is an object, number or boolean (so `includes`
      is not a function) is quoted up to 200 characters; a falsy or absent
      `error` quotes the whole body; any other `error` is rendered with `String`. */
  function BadRequestDetail(text: string, codec: Codec): (q: Option<string>)
    ensures q.None? <==> ModelRejected(text, codec)
    ensures codec.parse(text).Failure? ==> q == Some(Take(text, QuoteLimit))
    ensures codec.parse(text) == Success(JNull) ==> q == Some(Take(text, QuoteLimit))
    ensures codec.parse(text).Success? && codec.parse(text).value != JNull
            ==> (!IsTruthy(Prop(codec.parse(text).value, "error")) ==> q == Some(text))
    ensures codec.parse(text).Success? && codec.parse(text).value != JNull
            && IsTruthy(Prop(codec.parse(text).value, "error")) ==>
              var err := Prop(codec.parse(text).value, "error").value;
              && (err.JStr? && !Contains(err.s, "model") ==> q == Some(err.s))
              && (err.JArr? && JStr("model") !in err.items ==> q == Some(StringOf(err, codec)))
              && (!err.JStr? && !err.JArr? ==> q == Some(Take(text, QuoteLimit)))
  {
    match codec.parse(text)
    case Failure(_) => Some(Take(text, QuoteLimit))
    case Success(data) =>
      if data == JNull then Some(Take(text, QuoteLimit))
      else
        var err := Prop(data, "error");
        if !IsTruthy(err) then Some(text)
        else match err.value
          case JStr(s) => if Contains(s, "model") then None else Some(s)
          case JArr(items) => if JStr("model") in items then None else Some(StringOf(err.value, codec))
          case _ => Some(Take(text, QuoteLimit))
  }

  /** A bad-request message is never the invalid-model message. */
  lemma BadRequestIsNotInvalidModel(detail: string, modelName: string)
    ensures StartsWith(BadRequestPrefix + detail, BadRequestPrefix)
    ensures BadRequestPrefix + detail != InvalidModelMessage(modelName)
  {
    var r := BadRequestPrefix + detail;
    assert r[..|BadRequestPrefix|] == BadRequestPrefix;
    assert r[4] == 'B';
    assert InvalidModelMessage(modelName)[4] == 'I';
  }

  /** The test-connection text for a 400 response. */
  function BadRequestMessage(text: string, modelName: string, codec: Codec): (r: string)
    ensures r == InvalidModelMessage(modelName) <==> ModelRejected(text, codec)
    ensures !ModelRejected(text, codec) ==> StartsWith(r, BadRequestPrefix)
    ensures codec.parse(text).Failure? ==> r == BadRequestPrefix + Take(text, QuoteLimit)
    ensures !ModelRejected(text, codec) ==> r == BadRequestPrefix + BadRequestDetail(text, codec).value
  {
    var q := BadRequestDetail(text, codec);
    if q.None? then InvalidModelMessage(modelName)
    else
      BadRequestIsNotInvalidModel(q.value, modelName);
      BadRequestPrefix + q.value
  }

  /** The message test-connection throws for a non-2xx status. */
  function ProbeStatusMessage(status: nat, text: string, modelName: string, codec: Codec): (r: string)
    ensures status == 400 ==> r == BadRequestMessage(text, modelName, codec)
    ensures status == 401 ==> r == UnauthorizedAdvice
    ensures status == 403 ==> r == ForbiddenAdvice
    ensures status == 404 ==> r == NotFoundAdvice
    ensures status == 500 ==> r == ServerErrorAdvice
    ensures status !in {400, 401, 403, 404, 500} ==> r == StatusErrorMessage(status, Take(text, QuoteLimit))
  {
    if status == 404 then NotFoundAdvice
    else if status == 401 then UnauthorizedAdvice
    else if status == 403 then ForbiddenAdvice
    else if status == 400 then BadRequestMessage(text, modelName, codec)
    else if status == 500 then ServerErrorAdvice
    else ApiErrorPrefix + NatToDecimal(status) + "): " + Take(text, QuoteLimit)
  }

  /** An unclassified probe status quotes a bounded part of the body: the message
      never grows past the prefix, the status digits and 200 characters. */
  lemma ProbeStatusMessageBounded(status: nat, text: string, modelName: string, codec: Codec)
    requires status !in {400, 401, 403, 404, 500}
    ensures |ProbeStatusMessage(status, text, modelName, codec)| <= |ApiErrorPrefix| + |NatToDecimal(status)| + 3 + QuoteLimit
    ensures |text| <= QuoteLimit ==> ProbeStatusMessage(status, text, modelName, codec) == StatusErrorMessage(status, text)
  {
  }

  const ModelsHead := "Cannot list models ("
  const ModelsTail := "). Your API might not support the /v1/models endpoint."
                      + " Please check with your team for available model names."

  /** The message list-models throws for any non-2xx status; the body is not read. */
  function ModelsStatusMessage(status: nat): (r: string)
    ensures StartsWith(r, ModelsHead) && |r| >= |ModelsHead| + |NatToDecimal(status)|
    ensures r[|ModelsHead|..|ModelsHead| + |NatToDecimal(status)|] == NatToDecimal(status)
    ensures r[|ModelsHead| + |NatToDecimal(status)|..] == ModelsTail
  {
    var d := NatToDecimal(status);
    var r := ModelsHead + d + ModelsTail;
    assert r[..|ModelsHead|] == ModelsHead;
    assert r[|ModelsHead|..|ModelsHead| + |d|] == d;
    assert r[|ModelsHead| + |d|..] == ModelsTail;
    r
  }

  const UnknownError := "Unknown error occurred"

  /** `error.message || 'Unknown error occurred'`: a failure is never reported blank. */
  function ErrorText(message: string): (r: string)
    ensures r != ""
    ensures message != "" ==> r == message
    ensures message == "" ==> r == UnknownError
  {
    if message != "" then message else UnknownError
  }
}
