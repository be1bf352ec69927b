/**
 * The chat view as a reducer: the stream listeners (chunk, end, error), the
 * send handler's guard, its optimistic update and its handling of the reply,
 * and clearing the conversation.  Each React state update is one step; the
 * updates of one handler are applied in the order the handler makes them.
 */
module Chat {
  import opened Wrappers
  import opened Text
  import opened Json
  import opened Diagnostics
  import opened ConfigStore
  import opened Gateway

  datatype Role = User | Assistant

  /** A chat message.  Its id and timestamp come from the clock and are not
      modelled. */
  datatype Message = Message(role: Role, content: Json)

  datatype ChatState = ChatState(
    messages: seq<Message>,
    input: string,
    isLoading: bool,
    error: Option<string>,
    streamingContent: string,
    useStreaming: bool)

  /** The state the view mounts with; streaming is on by default. */
  const Initial := ChatState([], "", false, None, "", true)

  const NoConfigMessage := "Please select an API configuration in Settings first."
  const SendFailedMessage := "Failed to send message. Please check your configuration."

  // ---------------------------------------------------------------------------
  // Stream listeners
  // ---------------------------------------------------------------------------

  /** `onStreamChunk`: the chunk's text is appended to the text in progress. */
  function OnChunk(s: ChatState, chunk: string): (r: ChatState)
    ensures r.streamingContent == s.streamingContent + chunk
    ensures r.(streamingContent := s.streamingContent) == s
  {
    s.(streamingContent := s.streamingContent + chunk)
  }

  /** `onStreamEnd`: a non-empty text in progress becomes one assistant
      message; the text in progress is cleared and loading stops. */
  function OnEnd(s: ChatState): (r: ChatState)
    ensures s.streamingContent != "" ==> r.messages == s.messages + [Message(Assistant, JStr(s.streamingContent))]
    ensures s.streamingContent == "" ==> r.messages == s.messages
    ensures r.streamingContent == "" && !r.isLoading
    ensures r.input == s.input && r.error == s.error && r.useStreaming == s.useStreaming
  {
    var messages := if s.streamingContent != "" then s.messages + [Message(Assistant, JStr(s.streamingContent))] else s.messages;
    s.(messages := messages, streamingContent := "", isLoading := false)
  }

  /** `onStreamError`: the error is shown and any partial text is dropped. */
  function OnError(s: ChatState, message: string): (r: ChatState)
    ensures r.error == Some(message) && r.streamingContent == "" && !r.isLoading
    ensures r.messages == s.messages && r.input == s.input && r.useStreaming == s.useStreaming
  {
    s.(error := Some(message), streamingContent := "", isLoading := false)
  }

  /** The listener an event reaches.  A chunk's content arrives as it was
      decoded and is appended with `+`, so it contributes its `String` text. */
  function Apply(s: ChatState, ev: StreamEvent, codec: Codec): (r: ChatState)
    ensures ev.Chunk? ==> r == OnChunk(s, StringOf(ev.content, codec))
    ensures ev.End? ==> r == OnEnd(s)
    ensures ev.Error? ==> r == OnError(s, ev.message)
    ensures |r.messages| >= |s.messages| && r.messages[..|s.messages|] == s.messages
  {
    match ev
    case Chunk(c) => OnChunk(s, StringOf(c, codec))
    case End => OnEnd(s)
    case Error(m) => OnError(s, m)
  }

  /** The events applied in order. */
  function ApplyAll(s: ChatState, events: seq<StreamEvent>, codec: Codec): (r: ChatState)
    ensures |r.messages| >= |s.messages| && r.messages[..|s.messages|] == s.messages
    ensures r.input == s.input && r.useStreaming == s.useStreaming
  {
    if events == [] then s
    else
      var prev := ApplyAll(s, events[..|events| - 1], codec);
      var r := Apply(prev, events[|events| - 1], codec);
      assert r.messages[..|s.messages|] == r.messages[..|prev.messages|][..|s.messages|];
      r
  }

  /** Applying one more event. */
  lemma ApplyAllSnoc(s: ChatState, events: seq<StreamEvent>, ev: StreamEvent, codec: Codec)
    ensures ApplyAll(s, events + [ev], codec) == Apply(ApplyAll(s, events, codec), ev, codec)
  {
    assert (events + [ev])[..|events|] == events;
  }

  /** The text a sequence of chunk contents adds up to. */
  function DeltaText(deltas: seq<Json>, codec: Codec): string {
    if deltas == [] then ""
    else DeltaText(deltas[..|deltas| - 1], codec) + StringOf(deltas[|deltas| - 1], codec)
  }

  /** A run of chunk events only accumulates text: it appends the texts of the
      contents, in order, and changes nothing else. */
  lemma {:induction false} ChunksAccumulate(s: ChatState, deltas: seq<Json>, codec: Codec)
    ensures ApplyAll(s, ChunkEvents(deltas), codec) == s.(streamingContent := s.streamingContent + DeltaText(deltas, codec))
  {
    if deltas != [] {
      var n := |deltas| - 1;
      assert ChunkEvents(deltas)[..n] == ChunkEvents(deltas[..n]);
      ChunksAccumulate(s, deltas[..n], codec);
    }
  }

  /** The chunk events for a sequence of contents. */
  function ChunkEvents(deltas: seq<Json>): (r: seq<StreamEvent>)
    ensures |r| == |deltas| && forall i :: 0 <= i < |deltas| ==> r[i] == Chunk(deltas[i])
  {
    seq(|deltas|, i requires 0 <= i < |deltas| => Chunk(deltas[i]))
  }

  /** The events of a streaming call are its chunk events followed by its
      terminal event. */
  lemma EventsSplit(run: StreamRun)
    ensures Events(run) == ChunkEvents(run.deltas) + [run.terminal]
  {
  }

  // ---------------------------------------------------------------------------
  // Sending
  // ---------------------------------------------------------------------------

  /** The call `handleSendMessage` makes after its optimistic update. */
  datatype Dispatch = Dispatch(message: string, configId: string, streaming: bool)

  /** The state after the synchronous part of the handler, and the call it makes. */
  datatype SendStep = SendStep(state: ChatState, dispatch: Option<Dispatch>)

  /** The first half of `handleSendMessage`, up to the IPC call.  Blank input or
      a request in flight leaves everything as it was; without an active
      configuration only the error is set.  Otherwise the user message is
      appended with the input as typed, the input and the error are cleared,
      and loading starts. */
  function BeginSend(s: ChatState, activeConfigId: Option<string>): (r: SendStep)
    ensures IsBlank(s.input) || s.isLoading ==> r == SendStep(s, None)
    ensures !IsBlank(s.input) && !s.isLoading && (activeConfigId.None? || activeConfigId == Some("")) ==>
              r == SendStep(s.(error := Some(NoConfigMessage)), None)
    ensures r.dispatch.Some? <==> !IsBlank(s.input) && !s.isLoading && activeConfigId.Some? && activeConfigId.value != ""
    ensures r.dispatch.Some? ==>
              && r.dispatch.value == Dispatch(s.input, activeConfigId.value, s.useStreaming)
              && r.state.messages == s.messages + [Message(User, JStr(s.input))]
              && r.state.input == "" && r.state.isLoading && r.state.error.None?
              && r.state.streamingContent == "" && r.state.useStreaming == s.useStreaming
  {
    TrimEmptyIffBlank(s.input);
    if Trim(s.input) == "" || s.isLoading then SendStep(s, None)
    else match activeConfigId
      case None => SendStep(s.(error := Some(NoConfigMessage)), None)
      case Some(id) =>
        if id == "" then SendStep(s.(error := Some(NoConfigMessage)), None)
        else
          var userMessage := Message(User, JStr(s.input));
          SendStep(s.(messages := s.messages + [userMessage], input := "", isLoading := true,
                      error := None, streamingContent := ""),
                   Some(Dispatch(s.input, id, s.useStreaming)))
  }

  /** What the streaming branch does once `send-message-stream` settles
      (`None`: the call itself threw).  A returned error overwrites the one
      the error event set; a success changes nothing, since the end event has
      already run. */
  function FinishStream(s: ChatState, reply: Option<StreamResult>): (r: ChatState)
    ensures reply == Some(StreamOk) ==> r == s
    ensures reply.Some? && reply.value.StreamErr? && reply.value.error != "" ==>
              r == s.(error := Some(reply.value.error), isLoading := false)
    ensures reply.None? ==> r == s.(error := Some(SendFailedMessage), isLoading := false)
    ensures r.messages == s.messages && r.streamingContent == s.streamingContent
  {
    match reply
    case None => s.(isLoading := false, error := Some(SendFailedMessage))
    case Some(StreamOk) => s
    case Some(StreamErr(e)) => if e != "" then s.(error := Some(e), isLoading := false) else s
  }

  /** What the buffered branch does once `send-message` settles (`None`: the
      call itself threw).  Loading stops; a truthy content becomes one
      assistant message, a returned error is shown, and a success with falsy
      content shows nothing at all. */
  function FinishBuffered(s: ChatState, reply: Option<SendResult>): (r: ChatState)
    ensures !r.isLoading && r.streamingContent == s.streamingContent && r.input == s.input
    ensures reply.Some? && reply.value.SendOk? && Truthy(reply.value.content) ==>
              r.messages == s.messages + [Message(Assistant, reply.value.content)] && r.error == s.error
    ensures reply.Some? && reply.value.SendOk? && !Truthy(reply.value.content) ==> r == s.(isLoading := false)
    ensures reply.Some? && reply.value.SendErr? ==>
              r.messages == s.messages && r.error == if reply.value.error != "" then Some(reply.value.error) else s.error
    ensures reply.None? ==> r == s.(isLoading := false, error := Some(SendFailedMessage))
  {
    var stopped := s.(isLoading := false);
    match reply
    case None => stopped.(error := Some(SendFailedMessage))
    case Some(SendOk(content, _)) =>
      if Truthy(content) then stopped.(messages := s.messages + [Message(Assistant, content)]) else stopped
    case Some(SendErr(e)) => if e != "" then stopped.(error := Some(e)) else stopped
  }

  /** `handleClearChat`: messages, error and text in progress are cleared; the
      input, the loading flag and the streaming choice stay. */
  function Clear(s: ChatState): (r: ChatState)
    ensures r.messages == [] && r.error.None? && r.streamingContent == ""
    ensures r.input == s.input && r.isLoading == s.isLoading && r.useStreaming == s.useStreaming
  {
    s.(messages := [], error := None, streamingContent := "")
  }

  // ---------------------------------------------------------------------------
  // Whole exchanges
  // ---------------------------------------------------------------------------

  /** The renderer's side of one streaming call, from a state with no text in
      progress: the chunks accumulate, the terminal event settles them, and the
      returned value is handled last.  An end with text adds one assistant
      message holding all of it; a failure drops the partial text and shows
      the returned error. */
  lemma StreamRunEffect(st: ChatState, run: StreamRun, codec: Codec)
    requires st.streamingContent == ""
    requires run.terminal.End? || run.terminal.Error?
    requires run.terminal.End? <==> run.result == StreamOk
    requires run.terminal.Error? ==> run.result == StreamErr(ErrorText(run.terminal.message))
    ensures var text := DeltaText(run.deltas, codec);
            var r := FinishStream(ApplyAll(st, Events(run), codec), Some(run.result));
            && r.messages == st.messages + (if run.terminal.End? && text != "" then [Message(Assistant, JStr(text))] else [])
            && r.error == (if run.terminal.End? then st.error else Some(ErrorText(run.terminal.message)))
            && !r.isLoading && r.streamingContent == "" && r.input == st.input
  {
    var text := DeltaText(run.deltas, codec);
    EventsSplit(run);
    ApplyAllSnoc(st, ChunkEvents(run.deltas), run.terminal, codec);
    ChunksAccumulate(st, run.deltas, codec);
    var mid := st.(streamingContent := text);
    assert st.streamingContent + text == text;
    assert ApplyAll(st, Events(run), codec) == Apply(mid, run.terminal, codec);
  }

  /** A streamed exchange end to end: the accepted send, every event of the
      main process's streaming call in order, then its returned value.  The
      conversation gains the user message and, when the stream ends normally
      with some text, exactly one assistant message holding all of it; a
      stream that fails drops the partial text and shows the error.  Either
      way loading stops and nothing is left in progress. */
  lemma StreamedExchange(s: ChatState, configs: seq<ApiConfig>, configId: string, env: Env, fetch: Fetch)
    requires !IsBlank(s.input) && !s.isLoading && configId != "" && s.useStreaming
    ensures var step := BeginSend(s, Some(configId));
            var run := StreamMessage(configs, configId, s.input, env, fetch);
            var text := DeltaText(run.deltas, env.codec);
            var r := FinishStream(ApplyAll(step.state, Events(run), env.codec), Some(run.result));
            && r.messages == s.messages + [Message(User, JStr(s.input))]
                             + (if run.terminal.End? && text != "" then [Message(Assistant, JStr(text))] else [])
            && r.error == (if run.terminal.End? then None else Some(ErrorText(run.terminal.message)))
            && !r.isLoading && r.streamingContent == "" && r.input == ""
  {
    var run := StreamMessage(configs, configId, s.input, env, fetch);
    StreamRunEffect(BeginSend(s, Some(configId)).state, run, env.codec);
  }

  /** A buffered exchange end to end: the user message, then one assistant
      message exactly when the main process returns a truthy content; an
      error it returns is shown instead. */
  lemma BufferedExchange(s: ChatState, configs: seq<ApiConfig>, configId: string, env: Env, fetch: Fetch)
    requires !IsBlank(s.input) && !s.isLoading && configId != "" && !s.useStreaming
    ensures var step := BeginSend(s, Some(configId));
            var result := SendMessage(configs, configId, s.input, env, fetch);
            var r := FinishBuffered(step.state, Some(result));
            && r.messages == s.messages + [Message(User, JStr(s.input))]
                             + (if result.SendOk? && Truthy(result.content) then [Message(Assistant, result.content)] else [])
            && r.error == (if result.SendErr? then Some(result.error) else None)
            && !r.isLoading && r.input == ""
  {
  }

  /** Clearing does not stop a stream in flight: text that arrives after the
      clear, and the end event, still produce an assistant message, now the
      only message of the conversation. */
  lemma ClearDuringStream(s: ChatState, deltas: seq<Json>, codec: Codec)
    requires DeltaText(deltas, codec) != ""
    ensures var r := ApplyAll(Clear(s), ChunkEvents(deltas) + [End], codec);
            r.messages == [Message(Assistant, JStr(DeltaText(deltas, codec)))] && !r.isLoading
  {
    ApplyAllSnoc(Clear(s), ChunkEvents(deltas), End, codec);
    ChunksAccumulate(Clear(s), deltas, codec);
    assert "" + DeltaText(deltas, codec) == DeltaText(deltas, codec);
  }
}
