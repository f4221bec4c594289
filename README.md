# VedaBot chat memory, modelled in Dafny

VedaBot relays WhatsApp messages to the Gemini completion service and sends the answers back. It keeps an in-memory chat history per conversation. This project models the part of `server.js` that holds state:

- **The `chatHistory` map** (server.js:12). It maps each conversation id (`remoteJid`) to its turns. Turns are kept in order, and each is a role plus one text part.
- **The `messages.upsert` handler** (server.js:58-103). It reads only the first message of a batch and drops messages from the bot itself and messages without text. It extracts and trims the text. On first contact it seeds the history with the system prompt. It appends the user turn and submits the whole history. On success it appends the model turn and, above 10 entries, splices out the entries at indices 1 and 2. It answers quoting the message, or sends an apology when the request fails.
- **The close decision of the `connection.update` handler** (server.js:35-54).

The project is organised as follows:

| file | module | what it holds |
|---|---|---|
| wrappers.dfy | `Wrappers` | `Option`, and `Truthy` for a string in a JavaScript `\|\|` chain |
| inbound.dfy | `Inbound` | the inbound message shape; `ExtractText` (`conversation \|\| extendedTextMessage?.text \|\| ""`); the handler's filter `Accept`; JavaScript `trim` |
| completion.dfy | `Completion` | the response body shape; `ExtractReply` (`candidates?.[0]?.content?.parts?.[0]?.text \|\| "❗ No response"`) |
| history.dfy | `History` | `Turn`; `Evict` (the `splice(1, 2)` above 10 entries); `Step`, the effect of one event as a function of the old map |
| properties.dfy | `HistoryProperties` | `Run` over a sequence of events, and the lemmas about `Step` and `Run` |
| server.dfy | `Server` | class `ChatStore`: the `chatHistory` field and the handler, which updates the map in place and is proved equal to `Step` |
| connection.dfy | `Connection` | the reaction to a `connection.update` event |

The completion request is not performed. The handler takes its outcome as the parameter `completion`: `Failed` when the POST rejects, or `Succeeded(body)`. The handler returns the turns it would have submitted (`request`) and the message it would send (`out`). The system prompt's wording is not modelled. It is the constructor parameter `systemPrompt`, so every property holds whatever the prompt says.

## Model

| member | source | states |
|---|---|---|
| `Inbound.ExtractText` | server.js:63 | The text is the `conversation` field when that is a non-empty string. Otherwise it is the extended text when that is non-empty. It is empty exactly when neither field holds a non-empty string. |
| `Inbound.Accept` | server.js:58-65 | An event is handled exactly when the batch is non-empty and its first message has a `message`. The message must also not be `fromMe` and must have non-empty extracted text. The handled query carries that message's `remoteJid` and its untrimmed text. |
| `Inbound.OnlyFirstMessageCounts` | server.js:59 | Only `messages[0]` decides: the rest of the batch is never read. |
| `Inbound.IsJsWhitespace` | server.js:66 | The characters `trim` removes: ECMAScript's WhiteSpace and LineTerminator sets. All of them lie in the Basic Multilingual Plane, and the zero-width space and the next-line control are not among them. |
| `Inbound.TrimStart` | server.js:66 | The result is a suffix of the input. Everything cut off is JavaScript whitespace, and the result does not start with whitespace. |
| `Inbound.TrimEnd` | server.js:66 | The result is a prefix of the input. Everything cut off is whitespace, and the result does not end with whitespace. |
| `Inbound.Trim` | server.js:66 | The result is no longer than the input and neither starts nor ends with whitespace. It is empty exactly when the input is all whitespace. |
| `Inbound.TrimOfPadded` | server.js:66 | Trimming any whitespace around a core that neither starts nor ends with whitespace gives back exactly that core. This pins down `trim` completely. |
| `Inbound.TrimIdempotent` | server.js:66 | Trimming twice is the same as trimming once. |
| `Completion.ExtractReply` | server.js:84 | The reply is never empty. It is the first candidate's first part text when that is a non-empty string, and `"❗ No response"` otherwise. |
| `Completion.ReplyOfFirstPart` | server.js:84 | Any body whose first candidate's first part holds a non-empty text yields that text, whatever other parts and candidates follow. |
| `Completion.ReplyFallbacks` | server.js:84 | Each of these gives the fallback reply: missing candidates, an empty candidate list, missing content, missing parts, no parts, a missing text or an empty text. |
| `History.Evict` | server.js:90-91 | Index 0 is kept. A history of at most 12 entries ends with at most 10. At most 10 entries are left untouched. Above 10 entries exactly indices 1 and 2 are removed. |
| `History.Step` | server.js:58-103 | One `messages.upsert` event as a function of the old map. Nothing is sent exactly when the event is filtered out, and a filtered event changes nothing and submits nothing. A handled event submits turns that end in the trimmed user turn. It answers its own conversation and stores a history for it. (`OnMessagesUpsert` is proved equal to it; the lemmas below state the rest.) |
| `Server.ChatStore.constructor` | server.js:12 | The map starts empty, so every history in it trivially starts with the prompt. |
| `Server.ChatStore.OnMessagesUpsert` | server.js:58-103 | The handler updates `chatHistory` in place. The new map, the submitted turns and the outbound message are exactly those of `Step`. The prompt stays at index 0 of every history. |
| `Server.ChatStore.Exchange` | server.js:65-102 | The request is the stored history (or the fresh seed) plus the trimmed user turn. On failure only that user turn is added, and the apology goes out without a quote. On success the model turn is appended and the splice applied, and the reply goes out quoting the message. No other entry changes. |
| `HistoryProperties.IgnoredEventsChangeNothing` | server.js:59-65 | Nothing is sent exactly when the event is filtered out. A filtered event leaves the map unchanged and submits nothing. A completion request is issued exactly when the event is handled. |
| `HistoryProperties.StepKeepsPinned` | server.js:69-91 | If every history starts with the system prompt turn, it still does after any event. |
| `HistoryProperties.RequestCarriesNewUserTurn` | server.js:74-82 | The submitted turns are the previous history followed by one user turn holding the trimmed text. The stored history is that request on failure, or that request with the model turn added and then spliced on success. So the request is taken before the model turn and before any trimming. |
| `HistoryProperties.SuccessShape` | server.js:84-94 | On success the history becomes old ++ [user, model] while that fits in 10 entries. Otherwise it becomes old[0] ++ old[3..] ++ [user, model]. The reply is sent quoting the inbound message. |
| `HistoryProperties.SuccessLength` | server.js:87-91 | On success a history of at most 10 entries stays within 10. Below 9 entries it grows by 2. From 9 entries on, its length stays where it was. |
| `HistoryProperties.FailureShape` | server.js:96-100 | On failure the history grows by exactly the user turn. No model turn is added and nothing is spliced. `"Veda is sleeping..."` is sent without a quote. |
| `HistoryProperties.FailureExtendsPrior` | server.js:74 | After a failed exchange for a conversation, the history is what it had before (or the seed) plus the user turn. |
| `HistoryProperties.StepIsolation` | server.js:69-91 | Every conversation other than the event's own keeps its presence and its turns. |
| `HistoryProperties.StepKeys` | server.js:69-71 | The only key an event can add is its own conversation. Filtered events add none. |
| `HistoryProperties.RunKeepsPinned` | server.js:69-91 | Index 0 stays the system prompt after any sequence of events. |
| `HistoryProperties.PromptAlwaysPinned` | server.js:12-91 | Starting from the empty map, every stored history is non-empty and starts with the system prompt turn. |
| `HistoryProperties.RunIsolation` | server.js:69-91 | A conversation that no handled event addresses is never created, changed or removed. |
| `HistoryProperties.AppendPairKeepsPaired` | server.js:87-91 | Appending a user turn and a model turn to a history of prompt plus user/model pairs (odd length, below 10), then splicing, gives such a history again. |
| `HistoryProperties.SuccessKeepsPaired` | server.js:74-91 | One successful exchange keeps every history as prompt plus alternating user/model pairs of odd length below 10. |
| `HistoryProperties.SuccessOnlyRunsStayPaired` | server.js:74-91 | A sequence of events whose completions all succeed keeps that shape. |
| `HistoryProperties.SuccessOnlyLengths` | server.js:87-91 | From the empty map, histories that only ever see successes have length 1, 3, 5, 7 or 9. |
| `HistoryProperties.FailuresAccumulate` | server.js:96-100 | Each failed exchange for a conversation adds exactly one turn and keeps everything before it. The length is the previous length plus the number of failures, with no bound. |
| `HistoryProperties.RepeatedFailuresExceedBound` | server.js:90 | Two failures in a row take a history of 9 entries to 11, past the limit of 10. |
| `HistoryProperties.NoCandidatesStillSucceeds` | server.js:84-94 | A response without candidates is still a success. `"❗ No response"` becomes the last (model) turn and is sent quoting the message. |
| `HistoryProperties.WhitespaceOnlyMessage` | server.js:63-74 | A non-empty all-whitespace text passes the emptiness check before it is trimmed. It is submitted and stored as an empty user turn, and a message is sent back. |
| `HistoryProperties.FirstExchange` | server.js:69-94 | On an empty map, a first question (such as "Hello") answered with a non-empty text (such as "Hi!") submits [prompt, question]. It stores [prompt, question, answer] and sends the answer quoting the question. |
| `HistoryProperties.FullHistoryDropsOldestPair` | server.js:87-91 | When a paired history of 9 entries gets a successful exchange, the entries removed at indices 1 and 2 are the oldest question and its answer. The result has 9 entries. |
| `HistoryProperties.EvictionAfterFailureSplitsPair` | server.js:90-91 | In a 10-entry history where a failure left two user turns at indices 1 and 2, the next success splices out both questions. The answer that followed them then sits at index 1 without its question. |
| `Connection.OnConnectionUpdate` | server.js:35-53 | A non-empty `qr` is shown. A close restarts the bot, through the "session expired" branch exactly when the status code is 401. An open is announced. The three reactions are independent. |
| `Connection.RestartIgnoresReason` | server.js:36-53 | Two updates that differ only in `lastDisconnect` restart alike, show the same QR code and announce alike. A logged-out close and any other close restart alike. |

Where the code and the behaviour one might expect of it part ways, the model follows the code:

- A failed completion does not reset or trim the history.
- Whitespace-only text is not dropped.
- The system prompt is stored with role `"user"`.
- A logged-out close restarts on the same stored credentials; nothing is invalidated.
- After failures the 10-entry limit no longer holds, and the splice can separate a question from its answer. `RepeatedFailuresExceedBound` and `EvictionAfterFailureSplitsPair` show this.

## Left out

- The socket, its configuration, the credential store and `creds.update` (server.js:1, 25-33, 56) belong to the messaging library and are not modelled.
- The HTTP POST to the Gemini endpoint and the API key read from the environment (server.js:4-9, 77-82) are not modelled. The request is replaced by its outcome, passed in as a parameter.
- Console output and the terminal QR drawing (server.js:37-39, 45, 48, 53, 97) are presentation only. An update with a QR code is only recorded as `qrShown`.
- The system prompt's wording (server.js:14-22) is a parameter.
- Concurrency is not modelled: each event is handled to completion before the next. The source awaits the POST (server.js:77), so two events for the same conversation could interleave there.
- The recursive `startBot()` is not modelled beyond the decision to call it. Each restart opens a new socket and registers new handlers.
- `Server.ChatStore.OnMessagesUpsert`: the reply send at server.js:94 sits inside the `try`. If that send failed, the apology would also be sent, after the history was already updated. The model treats the send as succeeding.
- `Server.ChatStore.OnMessagesUpsert`: a `null` or `undefined` response body makes `res.data.candidates` throw at server.js:84. That takes the failure path after the user turn was pushed, so it is the model's `Failed` outcome. The model's successful body is always present. A primitive body such as a string does not throw. It has no `candidates`, so it is the same as `ResponseBody(None)`, which the model covers.
- `Server.ChatStore.OnMessagesUpsert`: an empty batch makes `messages[0]` undefined, so the handler throws at server.js:60 before touching any state. The model treats that as an ignored event. The listener's promise is then rejected and nothing catches it; that unhandled rejection is outside the model.
- Conversation ids are plain strings. Ids that name a property every JavaScript object inherits (such as `constructor`) would be found "present" in `chatHistory` without being a history; WhatsApp ids have the form `number@server` and never do. A missing `remoteJid` is not modelled either.
- JavaScript strings are UTF-16 code units, while the model's are Unicode scalar values. Every character `trim` removes lies in the Basic Multilingual Plane, so trimming agrees.
- The value 401 of the messaging library's `DisconnectReason.loggedOut` comes from that library. It is not defined in this repository.
