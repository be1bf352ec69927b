# Enterprise AI Assistant: a Dafny model of the provider gateway

This project models the core of the Enterprise AI Assistant desktop client:

- the main-process IPC handlers that store provider configurations and talk
  to a chat-completion API;
- the settings form that edits a configuration;
- the chat view, a reducer over the conversation state.

The handlers in `src/main/main.ts` are `save-config`, `delete-config`,
`set-active-config-id`, `send-message`, `send-message-stream`,
`test-connection` and `list-models`. The Dafny model covers the following
parts of them:

- the configuration lookup;
- the base-URL pre-check;
- the request bodies and headers;
- the TLS agent options;
- the classification of rejected fetches and of non-2xx statuses;
- the server-sent-event line decoder;
- the content extraction of a buffered reply;
- the models URL rewrite and the normalisation of a models listing.

From `src/renderer/components/SettingsView.tsx` it models:

- the new-configuration defaults;
- the conversion of custom parameters to editable rows and back;
- the required-field validation;
- the row editing handlers.

From `src/renderer/components/ChatView.tsx` it models:

- the stream chunk, end and error handlers;
- the send guard, the dispatch and the handling of the result;
- clearing the chat.

Everything is immutable data and pure functions. The one exception is the
carry-over stream decoder, which is a method with a loop.

| module | file | what it holds |
|---|---|---|
| `Wrappers` | wrappers.dfy | `Option`, `Result` |
| `Text` | text.dfy | the string built-ins used: `trim`, `startsWith`, `includes`, `indexOf`, `replace` (first occurrence), `substring`, `split`, decimal rendering |
| `Record` | record.dfy | a JavaScript object as an ordered list of properties; property assignment (`Put`) and spread (`Assign`) |
| `Json` | json.dfy | JSON values, truthiness, optional chaining, `||`, `typeof`, `String(v)` |
| `ConfigStore` | config_store.dfy | `APIConfig`, the stored list, save, delete and lookup by id |
| `Requests` | requests.dfy | URL check, bodies, headers, agent options, the three requests, the models URL |
| `Diagnostics` | diagnostics.dfy | fetch-failure and status messages |
| `StreamDecoder` | stream_decoder.dfy | the SSE line decoder: the loop as written and the carry-over decoder |
| `Responses` | responses.dfy | content of a buffered reply, model names of a listing |
| `Gateway` | gateway.dfy | the four network handlers composed from the above |
| `Settings` | settings.dfy | the settings form |
| `Chat` | chat.dfy | the chat view reducer |

Foreign behaviour is passed in as parameters:

- `JSON.parse` and `JSON.stringify` are fields of a `Codec`. `parse` yields a
  `Result`, so the error text of a failed `response.json()` reaches the user.
  The codec also supplies number formatting.
- `new URL(...)` validity and `fs.existsSync` are fields of an `Env`.
- `fetch` is a function from the request to a `FetchOutcome`: either a
  rejection carrying the error's `code`, `message` and `cause`, or a response.
  A response carries its status, its text, and its body reader as the
  sequence of decoded chunks plus an optional read failure.
- `parseFloat` is a function to `Option<real>`, where `None` stands for NaN.

Optional strings (`proxyUrl`, `caCertPath`, an empty key) are plain strings.
The empty string plays the part of `undefined`, since both are falsy.

Reading a property of a `null` JSON value throws the engine's `TypeError`. The
model reports it as "Cannot read properties of null (reading 'x')".

## Behaviour worth knowing

The model follows the code in each of these cases, including where the
handlers behave less evenly than one might expect.

- **Stream reads.** The loop in `main.ts` splits every read on its own and
  carries no partial line to the next read. `Gateway.StreamMessage` models
  this loop as written (`StreamDecoder.DecodeAsWritten`). The decoder with a
  carry-over buffer, `StreamDecoder.DecodeBuffered`, is the corrected version
  logged under Findings. `Gateway.AlignedStreamMatchesHandler` shows that the
  handler sends what the corrected decoder would whenever every read ends at
  a line break.
- **Failure classification.** The four operations do not share one
  classifier. The code has three different behaviours:
  - send and send-stream recognise only three error codes, append the
    `cause`, and report every non-2xx status verbatim;
  - test-connection also recognises certificate failures and classifies
    statuses;
  - list-models reports the raw fetch message and one fixed status text.
- **Models URL.** A URL without `/chat/completions` does not always come back
  unchanged: the code still collapses `/v1/v1` in such a URL (see
  `Requests.ModelsUrlUnchanged`).
- **Base-URL check.** The base-URL check runs only in the two chat handlers.
  test-connection and list-models send their request without it (see
  `Gateway.TestConnectionSkipsUrlCheck`).

## Model

| member | source | states |
|---|---|---|
| ConfigStore.FindIndex | src/main/main.ts:89 | the index found holds the id and no earlier entry does; `None` means no entry has the id |
| ConfigStore.Save | src/main/main.ts:87-99 | a new id is appended at the end; otherwise the list keeps its length, the first entry with the id becomes the new config, and every other entry is unchanged in place |
| ConfigStore.Delete | src/main/main.ts:102-107 | no entry with the id is left, every other entry survives in its original order (a subsequence), and the length drops by the number of entries with that id |
| ConfigStore.Find | src/main/main.ts:123-128 | succeeds exactly when some entry has the id, returning the first such entry; otherwise fails with "Configuration not found" |
| ConfigStore.SaveConfig | src/main/main.ts:87-99 | after saving, looking the id up yields the saved config, every other id resolves as before, and the active id is untouched |
| ConfigStore.DeleteConfig | src/main/main.ts:102-107 | after deleting, the id is not found, every other id resolves as before, and an active id naming the deleted one is left dangling |
| ConfigStore.SaveKeepsAllOtherLookups | src/main/main.ts:87-99 | a save leaves the lookup of every other id unchanged |
| ConfigStore.DeleteKeepsAllOtherLookups | src/main/main.ts:102-107 | a delete leaves the lookup of every other id unchanged |
| ConfigStore.SetActiveConfigId | src/main/main.ts:115-118 | the active id is set and the configurations are untouched |
| ConfigStore.SaveThenFind | src/main/main.ts:87-99 | saving and then looking up the same id gives the saved config |
| ConfigStore.SaveKeepsOtherLookups | src/main/main.ts:87-99 | saving never changes the lookup of a different id |
| ConfigStore.SaveKeepsIdsUnique | src/main/main.ts:87-99 | a list with unique ids keeps unique ids after a save |
| ConfigStore.DeleteKeepsOtherLookups | src/main/main.ts:102-107 | deleting never changes the lookup of a different id |
| ConfigStore.DeleteUniqueCount | src/main/main.ts:102-107 | with unique ids, delete removes exactly one entry when the id is present and none otherwise |
| Requests.CheckBaseUrl | src/main/main.ts:137-147 | succeeds exactly for a non-blank URL that parses; a blank URL gets the empty-URL message before any parse, an unparsable one the invalid-URL message quoting it |
| Requests.ChatBody | src/main/main.ts:149-159 | keys start `model`, `messages` (then `stream` when streaming), keys are unique, and each key's value is the custom parameter's when one is given (so `stream` too can be overridden) and otherwise the model name, the single user message, or `true` |
| Requests.TestBody | src/main/main.ts:409-413 | the probe body has the model name, one user message "Hi", `max_tokens` 5 and no `stream` |
| Requests.ChatHeaders | src/main/main.ts:166-170 | headers start with `Content-Type`, `Authorization`; each header is the custom header when given, otherwise `application/json` or `Bearer <apiKey>` |
| Requests.ModelsHeaders | src/main/main.ts:522-525 | the models GET starts with `Authorization` Bearer, overridable by a custom header, and has no other default header |
| Requests.ModelsHeadersOmitContentType | src/main/main.ts:520-526 | the models request carries `Content-Type` only if a custom header supplies it, while the chat headers always do; the headers agree on every other name |
| Requests.ChatAgent | src/main/main.ts:174-191 | an agent exists exactly when `ignoreSsl`, `caCertPath` or `proxyUrl` is set; `rejectUnauthorized` is false exactly when `ignoreSsl` holds; `ca` is set exactly when the CA path is set and the file exists |
| Requests.ProbeAgent | src/main/main.ts:426-441 | as for the chat agent, but the proxy URL never triggers an agent |
| Requests.ProxyValueIgnored | src/main/main.ts:175-191 | the proxy URL's value never reaches the agent; a proxy alone gives an agent with default options |
| Requests.ProbeAgentAgreesWithChat | src/main/main.ts:427-441 | the probe and chat agents differ exactly for a configuration whose only trigger is the proxy URL |
| Requests.ModelsUrlUnchanged | src/main/main.ts:515 | a URL containing neither `/chat/completions` nor `/v1/v1` comes back unchanged |
| Requests.ModelsUrlPlainExample | src/main/main.ts:515 | `https://host/v1/chat/completions` becomes `https://host/v1/models` |
| Requests.ModelsUrlDoubledExample | src/main/main.ts:515 | `https://host/v1/v1/chat/completions` also becomes `https://host/v1/models` |
| Text.ReplaceFirst | src/main/main.ts:515 | `String.replace` with a string pattern: no occurrence leaves the text unchanged, otherwise only the first occurrence is replaced |
| Diagnostics.ChatClass | src/main/main.ts:205-211 | `ENOTFOUND` gives the DNS class, `ECONNREFUSED` the refused class and `ETIMEDOUT` the timeout class, each exactly; any other code is unclassified; never a certificate failure |
| Diagnostics.ProbeClass | src/main/main.ts:448-456 | the probe keeps the three code classes and reports a certificate failure exactly when none of them applies and the code is `UNABLE_TO_VERIFY_LEAF_SIGNATURE` or the message contains "certificate" |
| Diagnostics.ChatFetchMessage | src/main/main.ts:199-213 | an unclassified failure, and only it, reads "Network error: " with the message and the cause suffix; each of the three classes gives its fixed text with the base URL in place |
| Diagnostics.ChatFetchMessageDistinguishes | src/main/main.ts:205-211 | failures of different classes always get different messages, whatever the codes and texts |
| Diagnostics.ProbeFetchMessage | src/main/main.ts:446-458 | only an unclassified failure reads "Network error: " plus the message, with no cause; DNS and refusal give their fixed texts around the URL, a timeout its fixed text, and a certificate failure the text advising "Ignore SSL" |
| Diagnostics.ProbeRefinesChat | src/main/main.ts:448-456 | whatever the chat handlers leave unclassified is certificate or unclassified for the probe; the leaf-signature code is recognised only by the probe |
| Diagnostics.StatusErrorMessage | src/main/main.ts:216-220 | "API Error (", then exactly the status digits, then "): ", then the whole body, which ends the message |
| Diagnostics.StatusErrorMessageInjective | src/main/main.ts:219 | the status and the body can be recovered from the message: equal messages come from equal pairs |
| Diagnostics.BadRequestDetail | src/main/main.ts:474-484 | no detail exactly when the parsed `error` names the model; an unparsable or `null` body is quoted to 200 characters; a falsy `error` quotes the whole body; a string `error` is echoed, an array one rendered with `String`, and any other truthy `error` quotes the body to 200 characters |
| Diagnostics.BadRequestMessage | src/main/main.ts:473-484 | the invalid-model message exactly when the parsed `error` names the model; otherwise "400 Bad Request: " followed by the detail |
| Diagnostics.BadRequestIsNotInvalidModel | src/main/main.ts:478-480 | a bad-request message can never be mistaken for the invalid-model message |
| Diagnostics.ProbeStatusMessage | src/main/main.ts:465-491 | statuses 401, 403, 404 and 500 get fixed advice, 400 the bad-request analysis, anything else the status and the body cut to 200 characters |
| Diagnostics.ProbeStatusMessageBounded | src/main/main.ts:487-489 | for other statuses the message never exceeds the prefix, the digits and 200 characters, and equals the plain status message when the body is short |
| Diagnostics.ModelsStatusMessage | src/main/main.ts:542-544 | "Cannot list models (", the status digits, then the fixed advice about the `/v1/models` endpoint, which ends the message |
| Diagnostics.ErrorText | src/main/main.ts:244-247 | `error.message \|\| 'Unknown error occurred'`: never empty, the message itself when it has text |
| StreamDecoder.DecodeLine | src/main/main.ts:364-378 | a line yields a delta only if it starts with "data: ", and the delta is truthy |
| StreamDecoder.DecodeLineEmits | src/main/main.ts:362-378 | a line yields a delta exactly when it is non-blank, starts with "data: ", and its payload is not `[DONE]`, parses, is not `null` and has a truthy `choices[0].delta.content`; that content is the delta |
| StreamDecoder.BlankLinesNeverStartWithData | src/main/main.ts:362-365 | the blank-line filter is subsumed by the prefix test |
| StreamDecoder.DecodeLinesAppend | src/main/main.ts:364-379 | deltas come out in line order: decoding two runs of lines is decoding each in turn, with nothing lost or repeated at the seam |
| StreamDecoder.AsWrittenTruthy | src/main/main.ts:371-374 | every delta the loop sends is truthy |
| StreamDecoder.AsWrittenAppend | src/main/main.ts:355-381 | the loop sends the deltas of earlier reads before those of later reads |
| StreamDecoder.DecodeBuffered | src/main/main.ts:355-381 | the carry-over loop emits the deltas of the whole stream decoded as one text, whatever the read boundaries |
| StreamDecoder.AlignedChunksAgree | src/main/main.ts:360-362 | when every read ends at a line break, the loop as written emits exactly what the carry-over decoder emits |
| StreamDecoder.SplitLineLost | src/main/main.ts:360-362 | a `data:` line cut by a read boundary after an unparsable prefix yields nothing in the loop as written, while the carry-over decoder emits its delta |
| StreamDecoder.AsWrittenLosesSplitLine | src/main/main.ts:361-367 | the two halves of such a line, each split on its own, yield no delta |
| Responses.FirstTruthy | src/main/main.ts:228 | an `a \|\| b \|\| c` chain yields the first truthy candidate, or the default when none is truthy |
| Responses.FirstChoice | src/main/main.ts:227 | a first choice exists only when `choices` is truthy and the choice itself is truthy |
| Responses.ExtractContent | src/main/main.ts:225-235 | a `null` body fails; with a first choice the content is `message.content`, else `text`, else `''`; otherwise a truthy `response`, else a truthy `content`, else the serialised body |
| Responses.ChoiceShadowsTopLevel | src/main/main.ts:227-232 | once a first choice exists, adding or changing top-level `response` and `content` changes nothing |
| Responses.ModelNames | src/main/main.ts:552 | fails exactly when some element is `null`, reading `id`; otherwise at most one name per element, each truthy |
| Responses.NameIndices | src/main/main.ts:552 | the reference for the filter: increasing positions, exactly those whose `id \|\| name \|\| model` is truthy |
| Responses.ModelNamesCons | src/main/main.ts:552 | one element in front contributes its truthy name, if any, before the names of the rest |
| Responses.ModelNamesAppend | src/main/main.ts:552 | the names of a concatenation are the names of each part, joined in order |
| Responses.ModelNamesSelect | src/main/main.ts:552 | without a `null` element, the names are exactly the truthy names at the reference positions, one per such element, in element order |
| Responses.ModelNamesSound | src/main/main.ts:552 | every listed name is the `id \|\| name \|\| model` of some element |
| Responses.IdsListedInOrder | src/main/main.ts:551-552 | objects carrying non-empty string ids list exactly those ids, in order |
| Responses.NormaliseModels | src/main/main.ts:549-557 | a `null` body fails; an array `data` is mapped through the names; otherwise an array `models` is returned as it is; otherwise an object gives no models; a top-level array is returned as it is and a scalar gives no models |
| Gateway.ChatPreflight | src/main/main.ts:122-147 | succeeds exactly when the id is found and its base URL is non-blank and parses; otherwise gives the lookup or URL error |
| Gateway.SendMessage | src/main/main.ts:121-249 | an error is never empty; a failed pre-check is reported before any request; otherwise the outcome of the one chat request decides |
| Gateway.SendReply | src/main/main.ts:194-241 | a rejected fetch gives the chat fetch message; a non-2xx status the status message; a 2xx body that does not parse gives the parse error, a `null` one the `choices` error; any other 2xx body succeeds with its extracted content and the body; success only in that case |
| Gateway.SendPreflightIgnoresNetwork | src/main/main.ts:122-147 | when the pre-check fails, the network is never consulted |
| Gateway.SendDependsOnlyOnChatRequest | src/main/main.ts:149-194 | the result depends on the network only through its answer to the one chat request |
| Gateway.StreamMessage | src/main/main.ts:252-392 | exactly one terminal event, `end` or `error`, and the returned value matches it; a failed pre-check emits no delta; otherwise the one streaming chat request decides: a rejected fetch gives the chat fetch message, a non-2xx status the unclassified status message, a missing reader the fixed text, and a readable body the read loop |
| Gateway.ReadRun | src/main/main.ts:355-390 | the deltas of a readable body are those of the loop as written; `end` exactly when no read fails, otherwise `error` with the failure's reason |
| Gateway.StreamTerminatesOnce | src/main/main.ts:383-390 | the events are chunks followed by exactly one terminal event, which is last |
| Gateway.StreamChunksAreDecodedDeltas | src/main/main.ts:355-381 | the chunk events of a read body are the deltas of the reads, each read split and decoded on its own, in read and line order |
| Gateway.AlignedStreamMatchesHandler | src/main/main.ts:360-373 | when every read ends at a line break, nothing is lost: the chunk events equal the deltas of the whole body decoded at once |
| Gateway.TestConnection | src/main/main.ts:395-502 | success only with the fixed message; a missing id, a rejected fetch and a non-2xx status give the probe messages; a 2xx body that does not parse gives the parse error |
| Gateway.TestConnectionSkipsUrlCheck | src/main/main.ts:395-443 | a blank base URL that the chat handlers reject can still pass test-connection |
| Gateway.ListModels | src/main/main.ts:505-568 | a missing id, a rejected fetch (its raw message) and a non-2xx status are errors; a 2xx body that does not parse gives the parse error; a parsed one is normalised |
| Gateway.ListModelsIgnoresErrorBody | src/main/main.ts:540-544 | the error for a non-2xx status depends on the status alone, never on the body |
| Settings.NewConfig | src/renderer/components/SettingsView.tsx:30-42 | a new configuration has the given id, empty names, URL and key, context window 4096 and no custom parameters |
| Settings.RowsOf | src/renderer/components/SettingsView.tsx:48-54 | one row per parameter, in order, holding its key, `String(value)` and `typeof value` |
| Settings.RowValue | src/renderer/components/SettingsView.tsx:77-83 | a number row saves `parseFloat` or 0 for NaN; a boolean row saves true exactly for the text "true"; any other row saves its text |
| Settings.ParamsOf | src/renderer/components/SettingsView.tsx:73-85 | the saved object has unique keys and never the empty key or `__proto__` |
| Settings.ParamsOfLookup | src/renderer/components/SettingsView.tsx:74-85 | each saved key holds the value of the last row naming it among the rows whose key is kept; a key no such row names is absent |
| Settings.LastRowWins | src/renderer/components/SettingsView.tsx:75-84 | among rows sharing a key, the later row's value is saved |
| Settings.LastKeyedPair | src/renderer/components/SettingsView.tsx:75-84 | the last row naming a kept key gives that key's last binding |
| Settings.ProtoRowIgnored | src/renderer/components/SettingsView.tsx:75-84 | a `__proto__` row, whatever its value and type, changes nothing that is saved |
| Settings.RowsRoundTrip | src/renderer/components/SettingsView.tsx:48-54 | string, boolean and faithfully printed number parameters with unique keys, none empty or `__proto__`, convert to rows and save back to the same object |
| Settings.NestedValueFlattened | src/renderer/components/SettingsView.tsx:48-54 | an array, object or `null` parameter does not survive an edit: it is saved back as its `String` text |
| Settings.SaveForm | src/renderer/components/SettingsView.tsx:59-91 | with no form open nothing happens; a missing required field, and only that, refuses the save; otherwise only the custom parameters change, to the saved rows |
| Settings.NewConfigNeedsFields | src/renderer/components/SettingsView.tsx:63-71 | a fresh configuration cannot be saved until its required fields are filled in |
| Settings.AddRow | src/renderer/components/SettingsView.tsx:113-115 | one empty string row is appended and the others are unchanged |
| Settings.RemoveRow | src/renderer/components/SettingsView.tsx:117-119 | removing row i drops exactly that row, keeping the others in order; an index out of range removes nothing |
| Settings.RemoveAddedRow | src/renderer/components/SettingsView.tsx:113-119 | removing the row just added restores the rows |
| Settings.AddedRowNotSaved | src/renderer/components/SettingsView.tsx:74-85 | an added, still empty row does not change what is saved |
| Settings.ChangeRow | src/renderer/components/SettingsView.tsx:121-129 | only the named field of row i changes; every other row and field is untouched |
| Settings.ClearedKeyDropsParameter | src/renderer/components/SettingsView.tsx:121-129 | clearing the key of a row whose key is unique removes that parameter from the saved object |
| Chat.OnChunk | src/renderer/components/ChatView.tsx:28-30 | a chunk is appended to the streaming text and nothing else changes |
| Chat.OnEnd | src/renderer/components/ChatView.tsx:32-46 | non-empty streaming text becomes exactly one assistant message; the streaming text is cleared and loading stops |
| Chat.OnError | src/renderer/components/ChatView.tsx:48-52 | the error is shown, the streaming text cleared, loading stopped, the messages untouched |
| Chat.Apply | src/renderer/components/ChatView.tsx:28-52 | each stream event runs its handler; earlier messages are never lost |
| Chat.ApplyAll | src/renderer/components/ChatView.tsx:28-52 | a run of events keeps the earlier messages as a prefix and leaves the input alone |
| Chat.ChunksAccumulate | src/renderer/components/ChatView.tsx:28-30 | a run of chunk events appends all the chunk texts, in order, to the streaming text |
| Chat.BeginSend | src/renderer/components/ChatView.tsx:59-78 | blank input or a request in flight changes nothing; no active configuration only sets the error; otherwise the user message is appended, the input and error are cleared, loading starts, and exactly one call is dispatched |
| Chat.FinishStream | src/renderer/components/ChatView.tsx:80-91 | a returned error is shown and stops loading; a success changes nothing; a thrown call shows the fixed failure message |
| Chat.FinishBuffered | src/renderer/components/ChatView.tsx:93-117 | loading always stops; a truthy content becomes one assistant message; a returned error is shown; a thrown call shows the fixed failure message |
| Chat.Clear | src/renderer/components/ChatView.tsx:127-131 | messages, error and streaming text are emptied; input and loading are kept |
| Chat.StreamedExchange | src/renderer/components/ChatView.tsx:59-91 | a whole streamed exchange adds the user message and, if the stream ends with text, exactly one assistant message holding all of it; a failed stream shows its error; loading ends |
| Chat.BufferedExchange | src/renderer/components/ChatView.tsx:59-112 | a whole buffered exchange adds the user message and one assistant message exactly when the reply has truthy content; an error reply is shown instead |
| Chat.ClearDuringStream | src/renderer/components/ChatView.tsx:127-131 | clearing does not stop a stream: later chunks and the end event still produce an assistant message, the only message left |

## Left out

- Logging (`console.log`, `console.error`) and the React rendering, scrolling
  and key handling: they have no effect on the state modelled.
- electron-store persistence: the store is a value (`ConfigStore.Store`)
  passed in and returned. Concurrency between IPC calls is not modelled.
- `get-configs` and `get-active-config-id`: each is a plain read of one field
  of the store.
- The loading of the configuration list and the `confirm` dialog in the
  settings view: both are UI plumbing around the modelled handlers.
- `fs.readFileSync`: the CA certificate is represented by its path. The file
  contents are I/O.
- `fetch`, `https.Agent`, the URL parser and the JSON codec: these are foreign
  code and appear as parameters.
- `TextDecoder`: each read is taken as already-decoded text. The handling of
  multi-byte characters cut by a read boundary is foreign code.
- The ids and timestamps made with `Date.now()` and `new Date()`: they come
  from the clock. A new configuration takes its id as a parameter, and chat
  messages carry no id or timestamp.
- The ordering JavaScript gives integer-like property keys (`"1"` before
  `"a"`): `Record` keeps insertion order for every key.
- Numbers are `real`. NaN, the infinities and `-0` are not represented, and
  number formatting is a codec parameter.
- Settings.RowsRoundTrip: this is weaker than an unconditional round trip.
  Number parameters round-trip only when the codec's formatting parses back
  to the same number (`Settings.Restorable`). Nested values, shown by
  `Settings.NestedValueFlattened`, do not round-trip in the code either.
  A `__proto__` parameter does not round-trip, because the save assigns it
  through the inherited accessor, which ignores a string, number or boolean
  (`Settings.ProtoRowIgnored`).
- Requests.ChatAgent: states the agent's options, not the `https.Agent`
  object built from them. The option values are foreign.
- Settings.ChangeRow: requires the index of an existing row. The form calls
  it only from a rendered row, and writing past the end of the array is not
  modelled.
- Gateway.StreamMessage: the body reader is a finite sequence of reads. A
  stream that never ends is not represented.
- Text.Take: counts code points; `substring(0, 200)` counts UTF-16 code
  units and can cut a surrogate pair, so a body with characters outside the
  Basic Multilingual Plane is cut at a different place.
- Json.Index0: `s[0]` on a string is the first code point here, the first
  UTF-16 code unit in JavaScript; they differ for characters outside the
  Basic Multilingual Plane.

## Findings

| source | as written | input that shows it | evidently intended | confidence | as-written member | corrected member |
|---|---|---|---|---|---|---|
| src/main/main.ts:360-362 | each read is split on `\n` and its lines are decoded on their own; no partial line is carried to the next read | two reads, `data: {"choices":[{"delta":` and `{"content":"Hi"}}]}\n`: the first half does not parse and the second lacks the `data: ` prefix, so "Hi" is never sent | a partial last line is kept and completed by the next read, so the deltas do not depend on where reads split the stream | not executed | StreamDecoder.SplitLineLost | StreamDecoder.DecodeBuffered |

- As written: the loop is `StreamDecoder.DecodeAsWritten`, and
  `Gateway.StreamMessage` sends its deltas (`Gateway.StreamChunksAreDecodedDeltas`).
  `StreamDecoder.SplitLineLost` exhibits the lost delta for any line whose
  JSON is cut after an unparsable prefix.
- Corrected: the decoder with a carry-over buffer is `StreamDecoder.DecodeBuffered`.
  It is proved equal to `StreamDecoder.DecodeStream`, which decodes all reads
  joined into one text.
- `StreamDecoder.AlignedChunksAgree` and `Gateway.AlignedStreamMatchesHandler`
  show that the code and the corrected decoder agree whenever every read ends
  at a line break.
