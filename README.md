# Multi-turn WebSocket chat gateway: history, prompt and streaming segments

A Dafny model of the session and streaming core of a Spring AI chat
gateway. Two WebSocket handlers keep one conversation history per
connection identity, in a map called `userChatHistories`:

- `ChatWebSocketHandler` sends the model's reply as one message.
- `StreamChatWebSocketHandler` streams the reply back in segments.

`DeepSeekChatService` builds the role-tagged prompt from a history and
the new input. `MessageDTO` is one stored turn.

Modules, leaf first:

- `Turns` (`turns.dfy`): the `Turn` value, which is `MessageDTO`.
- `QueryParams` (`query_params.dfy`): identity derivation by `getUserId`.
  This method is word for word the same in both handlers. The module also
  holds Java's `String.split` with one separator character, and
  `StringUtils.isBlank`.
- `Prompt` (`prompt.dfy`): `multipleChatWithPrompt` and the guard in
  `multipleChat`. The model is a function parameter `seq<Message> -> Reply`.
- `HistoryStore` (`history_store.dfy`): the map operations, plus the two
  eviction policies. One is the streaming handler's `while` loop
  (`Retained`, `EvictOldest`). The other is the plain handler's single
  `if` (`CommitOnce`).
- `Segmenter` (`segmenter.dfy`): `shouldFlush` and `isBreakChar`. It also
  holds the segmentation a fragment stream produces (`Segmentation`), and
  the class `StreamExchange`, which is the state the stream callbacks
  update in place: the full-reply builder, the segment builder, and the
  messages sent on the session.
- `StreamChat` (`stream_chat.dfy`) and `Chat` (`chat.dfy`): the two
  handlers as classes over their `histories` map.

Messages sent to the client are returned as a sequence (`sent`, or the
`outbox` field).

Behaviour kept exactly as the code has it:

- A streamed reply's trailing remainder is never sent. This is text still
  in the segment buffer at completion that is shorter than 20 characters
  and does not end in a break character (`UnsentRemainder`).
- The streaming handler's `computeIfAbsent` stores an empty history even
  when the stream then fails.
- The plain handler's `getOrDefault` gives a detached empty list when the
  identity has no entry. The reply is then built from an empty history and
  committed nowhere. The `history == null` notice of the source can never
  be sent.
- Two connections that give the same `userId` share one history. When
  either one closes, the history is removed for both.

Further behaviour a reader might not expect, kept as the code has it:

- No remainder is flushed on completion.
- The plain handler does not create a missing history on commit.
- Any value that makes `split("=")` give exactly two parts counts as the
  identity. This includes a blank value such as `" "`.
- An empty value (`userId=`) falls back to the session id, because `split`
  trims the trailing empty string (`EmptyValueFallsBack`).

## Model

| member | source | states |
|---|---|---|
| Turns.NewTurn | src/main/java/com/yhy/springai/dto/MessageDTO.java:17-28 | the constructor stores `user` and `assistant` in their own fields, so the getters return exactly what was passed |
| Turns.TurnEquality | src/main/java/com/yhy/springai/dto/MessageDTO.java:11-15 | equality of turns is structural: equal exactly when both fields are equal |
| Turns.NewTurnInjective | src/main/java/com/yhy/springai/dto/MessageDTO.java:17-20 | the constructor does not swap its arguments: equal turns come from equal (user, assistant) pairs |
| QueryParams.Pieces | src/main/java/com/yhy/springai/handler/StreamChatWebSocketHandler.java:124-125 | splitting on a separator yields at least one piece, empty pieces included |
| QueryParams.DropTrailingEmpty | src/main/java/com/yhy/springai/handler/StreamChatWebSocketHandler.java:124-125 | split's trimming keeps a prefix of the pieces, with no empty last element, and drops only empty strings |
| QueryParams.Split | src/main/java/com/yhy/springai/handler/StreamChatWebSocketHandler.java:124-125 | `split` keeps a prefix of the pieces, drops only empty ones, and ends in a non-empty element when the separator occurs; round trip in `SplitRoundTrip` |
| QueryParams.PiecesJoin | src/main/java/com/yhy/springai/handler/StreamChatWebSocketHandler.java:124-125 | joining the pieces with the separator gives back the string, and no piece holds the separator |
| QueryParams.PieceWithin | src/main/java/com/yhy/springai/handler/StreamChatWebSocketHandler.java:124-125 | every character of a piece occurs in the split string |
| QueryParams.PiecesWithoutSeparator | src/main/java/com/yhy/springai/handler/StreamChatWebSocketHandler.java:124-125 | a string without the separator is a single piece |
| QueryParams.SplitRoundTrip | src/main/java/com/yhy/springai/handler/StreamChatWebSocketHandler.java:124-125 | `split` loses only trailing empty pieces: putting them back and joining restores the string |
| QueryParams.SplitSound | src/main/java/com/yhy/springai/handler/StreamChatWebSocketHandler.java:124-125 | elements of `split` hold only characters of the input and never the separator |
| QueryParams.IsBlank | src/main/java/com/yhy/springai/handler/StreamChatWebSocketHandler.java:123 | the empty string is blank and a blank string holds no ASCII letter or digit (used by `BlankQueryHasNoUserId`) |
| QueryParams.IsUserIdPair | src/main/java/com/yhy/springai/handler/StreamChatWebSocketHandler.java:125-126 | a parameter that splits into exactly `["userId", v]` starts with `userId=` and has a value after it (`PairShape`) |
| QueryParams.PairShape | src/main/java/com/yhy/springai/handler/StreamChatWebSocketHandler.java:125-126 | a string that `split` turns into two parts is the first part, the separator, and at least one more character |
| QueryParams.FirstUserId | src/main/java/com/yhy/springai/handler/StreamChatWebSocketHandler.java:124-129 | the result is absent exactly when no parameter is a two-part `userId` pair; otherwise it is the value of the first such parameter |
| QueryParams.UserId | src/main/java/com/yhy/springai/handler/StreamChatWebSocketHandler.java:121-132 | a blank query gives the session id; any other result is the value of some `userId` pair of the query; `UserIdIsFirstPair` pins it to the first pair |
| QueryParams.UserIdPairNotBlank | src/main/java/com/yhy/springai/handler/StreamChatWebSocketHandler.java:123-127 | a query holding a `userId` pair is not blank |
| QueryParams.BlankQueryHasNoUserId | src/main/java/com/yhy/springai/handler/StreamChatWebSocketHandler.java:123 | a blank query has no `userId` pair, so the `isNotBlank` guard never changes the identity |
| QueryParams.UserIdIsFirstPair | src/main/java/com/yhy/springai/handler/StreamChatWebSocketHandler.java:121-132 | the identity is the value of the first `&`-parameter that splits on `=` into exactly `["userId", v]`, else the session id (blank query included) |
| QueryParams.PiecesEndingInSeparator | src/main/java/com/yhy/springai/handler/StreamChatWebSocketHandler.java:125 | a separator-free key followed by the separator splits into the key and one empty piece |
| QueryParams.EmptyValueNotAPair | src/main/java/com/yhy/springai/handler/StreamChatWebSocketHandler.java:125-126 | a parameter `key=` with an empty value is never a two-part pair |
| QueryParams.EmptyValueFallsBack | src/main/java/com/yhy/springai/handler/StreamChatWebSocketHandler.java:121-131 | the query `userId=` identifies the connection by its session id |
| QueryParams.GetUserId | src/main/java/com/yhy/springai/handler/ChatWebSocketHandler.java:101-112 | the search loop with early return gives exactly the identity `UserId` characterises (the streaming handler's copy is at StreamChatWebSocketHandler.java:121-132) |
| Prompt.ExchangesAt | src/main/java/com/yhy/springai/service/DeepSeekChatService.java:54-57 | the history loop adds 2 messages per turn: user(turn i) at 2i and assistant(turn i) at 2i+1 |
| Prompt.Exchanges | src/main/java/com/yhy/springai/service/DeepSeekChatService.java:54-57 | the history loop adds two messages per turn (positions and roles in `ExchangesAt`) |
| Prompt.Assemble | src/main/java/com/yhy/springai/service/DeepSeekChatService.java:48-60 | the list has 2k+2 messages, starts with the persona and ends with the new input (full shape in `AssembleShape`) |
| Prompt.AssembleShape | src/main/java/com/yhy/springai/service/DeepSeekChatService.java:48-60 | the list has 2k+2 messages: the persona system message first, user/assistant of turn i at 1+2i and 2+2i, the new input last |
| Prompt.AssembleAlternates | src/main/java/com/yhy/springai/service/DeepSeekChatService.java:51-60 | after the system message, roles alternate user, assistant, …, ending with user |
| Prompt.MultipleChat | src/main/java/com/yhy/springai/service/DeepSeekChatService.java:37-42 | an empty list is rejected with the guard's exception message; a non-empty list goes to the model |
| Prompt.MultipleChatWithPrompt | src/main/java/com/yhy/springai/service/DeepSeekChatService.java:47-63 | the loop-built list is exactly the assembled prompt, so the model sees it and the emptiness guard never fires |
| HistoryStore.PutIfAbsent | src/main/java/com/yhy/springai/handler/StreamChatWebSocketHandler.java:48 | an existing history is never overwritten; an absent key gets the initial history; other keys are untouched |
| HistoryStore.Remove | src/main/java/com/yhy/springai/handler/StreamChatWebSocketHandler.java:102 | the key is absent afterwards and every other key keeps its history |
| HistoryStore.Retained | src/main/java/com/yhy/springai/handler/StreamChatWebSocketHandler.java:92-94 | loop eviction keeps min(n, 50) turns, exactly the most recent ones in order |
| HistoryStore.EvictOldest | src/main/java/com/yhy/springai/handler/StreamChatWebSocketHandler.java:92-94 | the `while`/`remove(0)` loop leaves exactly `Retained` of the history |
| HistoryStore.CommitOnce | src/main/java/com/yhy/springai/handler/ChatWebSocketHandler.java:67-70 | the new turn is last; the size grows by one below the bound and otherwise stays the same; the result is a suffix of history + [turn] |
| HistoryStore.RetainedAppend | src/main/java/com/yhy/springai/handler/StreamChatWebSocketHandler.java:91-94 | committing onto an evicted history equals evicting the whole appended history |
| HistoryStore.CommitAll | src/main/java/com/yhy/springai/handler/StreamChatWebSocketHandler.java:90-95 | after one or more loop-evicted commits the history is within 50 and ends with the last turn committed (`CommitAllKeepsMostRecent` gives the whole result) |
| HistoryStore.CommitAllKeepsMostRecent | src/main/java/com/yhy/springai/handler/StreamChatWebSocketHandler.java:90-95 | after any sequence of commits the history holds exactly the min(N, 50) most recent turns in arrival order |
| HistoryStore.CommitOnceWithinBound | src/main/java/com/yhy/springai/handler/ChatWebSocketHandler.java:67-70 | within the bound, the single `if` evicts exactly as the loop does and keeps size ≤ 50 |
| HistoryStore.CommitOnceOversized | src/main/java/com/yhy/springai/handler/ChatWebSocketHandler.java:68-70 | an oversized history loses only one turn per commit, so it stays oversized and differs from the loop's result |
| HistoryStore.CommitAllOnce | src/main/java/com/yhy/springai/handler/ChatWebSocketHandler.java:66-71 | single-`if` commits keep a bounded history within 50 and end with the last turn committed (`CommitAllOnceKeepsMostRecent` gives the whole result) |
| HistoryStore.CommitAllOnceKeepsMostRecent | src/main/java/com/yhy/springai/handler/ChatWebSocketHandler.java:66-71 | from a bounded start, single-`if` commits keep the same most recent turns as the loop |
| Segmenter.IsBreakChar | src/main/java/com/yhy/springai/handler/StreamChatWebSocketHandler.java:157-159 | true exactly for `，。！？；,.!?;` and newline |
| Segmenter.ShouldFlush | src/main/java/com/yhy/springai/handler/StreamChatWebSocketHandler.java:141-149 | false for an empty buffer; true at length ≥ maxLength whatever the last character; otherwise true iff the last character is a break character |
| Segmenter.ConcatAppend | src/main/java/com/yhy/springai/handler/StreamChatWebSocketHandler.java:69 | appending one fragment extends the concatenated text by that fragment |
| Segmenter.Segmentation | src/main/java/com/yhy/springai/handler/StreamChatWebSocketHandler.java:66-79 | after any fragments the buffer left is never due and is shorter than 20 (text kept by `SegmentationKeepsText`, sends due by `SegmentsAreDue`) |
| Segmenter.SegmentationKeepsText | src/main/java/com/yhy/springai/handler/StreamChatWebSocketHandler.java:69-75 | the sent segments, then the buffer, spell exactly the fragments received, in order |
| Segmenter.SegmentsAreDue | src/main/java/com/yhy/springai/handler/StreamChatWebSocketHandler.java:72-75 | every sent segment was due (non-empty, long enough or ending in a break character); the buffer left behind never is |
| Segmenter.UnsentRemainder | src/main/java/com/yhy/springai/handler/StreamChatWebSocketHandler.java:89-96 | the remainder is shorter than 20 characters; when it is non-empty, the client never receives the whole reply |
| Segmenter.LongFragmentSentWhole | src/main/java/com/yhy/springai/handler/StreamChatWebSocketHandler.java:72-75 | a fragment that brings the buffer to 20 characters or more is sent whole, together with the waiting text, and the buffer is cleared |
| Segmenter.PlainRunHeldBack | src/main/java/com/yhy/springai/handler/StreamChatWebSocketHandler.java:72 | up to 19 plain fragments `"a"` cause no send and all wait in the buffer |
| Segmenter.BreakAtTwentieth | src/main/java/com/yhy/springai/handler/StreamChatWebSocketHandler.java:72-74 | 19 `"a"` then `"."` give exactly one 20-character segment |
| Segmenter.LoneBreakSentAtOnce | src/main/java/com/yhy/springai/handler/StreamChatWebSocketHandler.java:72-74 | a `"."` arriving first is sent on its own at once |
| Segmenter.StreamExchange.constructor | src/main/java/com/yhy/springai/handler/StreamChatWebSocketHandler.java:61-63 | both builders start empty and nothing has been sent |
| Segmenter.StreamExchange.OnNext | src/main/java/com/yhy/springai/handler/StreamChatWebSocketHandler.java:66-79 | the fragment goes onto both builders; if the segment is then due it is sent whole and cleared; the invariant linking builders, sends and fragments is kept |
| Segmenter.StreamExchange.OnError | src/main/java/com/yhy/springai/handler/StreamChatWebSocketHandler.java:81-87 | exactly one notice is sent and the buffered segment is not |
| StreamChat.Subscribe | src/main/java/com/yhy/springai/handler/StreamChatWebSocketHandler.java:65-96 | run over a whole stream, the callbacks accumulate the full reply and send the due segments in order, plus one failure notice on error |
| StreamChat.StreamChatHandler.constructor | src/main/java/com/yhy/springai/handler/StreamChatWebSocketHandler.java:36 | the history map starts empty |
| StreamChat.StreamChatHandler.AfterConnectionEstablished | src/main/java/com/yhy/springai/handler/StreamChatWebSocketHandler.java:44-50 | puts an empty history for the identity only if absent, keeping every history within 50 |
| StreamChat.StreamChatHandler.HandleTextMessage | src/main/java/com/yhy/springai/handler/StreamChatWebSocketHandler.java:53-97 | the history is created if absent and the model gets the assembled prompt; the sends are the due segments (plus one notice on error); on completion exactly (input, full reply) is appended and the oldest turns are evicted down to 50; on error nothing is committed; other identities are untouched |
| StreamChat.StreamChatHandler.AfterConnectionClosed | src/main/java/com/yhy/springai/handler/StreamChatWebSocketHandler.java:100-104 | the identity's history is removed and the others are kept |
| StreamChat.StreamChatHandler.HandleTransportError | src/main/java/com/yhy/springai/handler/StreamChatWebSocketHandler.java:107-116 | the identity's history is removed and the others are kept |
| Chat.ChatHandler.constructor | src/main/java/com/yhy/springai/handler/ChatWebSocketHandler.java:35 | the history map starts empty |
| Chat.ChatHandler.AfterConnectionEstablished | src/main/java/com/yhy/springai/handler/ChatWebSocketHandler.java:40-46 | puts an empty history for the identity only if absent |
| Chat.ChatHandler.HandleTextMessage | src/main/java/com/yhy/springai/handler/ChatWebSocketHandler.java:49-77 | on a reply: the reply is sent once; if the identity has a history, (input, reply) becomes its last turn with single-step eviction, otherwise the map is unchanged. On a throw: exactly one notice is sent and nothing changes. The bound of 50 is kept |
| Chat.ChatHandler.AfterConnectionClosed | src/main/java/com/yhy/springai/handler/ChatWebSocketHandler.java:80-84 | the identity's history is removed and the others are kept |
| Chat.ChatHandler.HandleTransportError | src/main/java/com/yhy/springai/handler/ChatWebSocketHandler.java:87-96 | the identity's history is removed and the others are kept |

## Left out

- Concurrency is not modelled. This covers `ConcurrentHashMap`, `Collections.synchronizedList`, the `synchronized` blocks and Reactor's asynchronous `subscribe`. Each handler event, and each stream, runs to the end as one sequential call. So the model does not capture a close, or a second message, that arrives while a stream is still running. In the source, such a close makes the completion commit go to a list that is no longer in the map.
- Transport I/O is not modelled. Sends are recorded and never fail. The model therefore omits two source paths. If `sendMessage` throws inside the fragment callback, the segment buffer is not cleared. If the plain handler's final send throws, the failure notice follows a commit that already happened. `session.close`, the logging and `System.out` are left out as well.
- The language model and its streaming API are not modelled. They are function parameters that return a reply, an exception message, or a finite fragment sequence ending in completion or error. `singleChat` and `DeepSeekController` are one-line pass-throughs to the model and are not part of this model.
- `getMultipleMessages` is not in the service source. The streaming handler is modelled as calling the same list construction as `multipleChatWithPrompt` (`Assemble`).
- Java `null` is not modelled: a null message list, a null buffer, a null history, a null URI. Only non-null values exist in the model. The query string and the session id are taken as given, with no URI decoding.
- The byte round trip `new String(response.getBytes(), UTF_8)` is the identity here.
- Strings are sequences of Unicode scalar values, but Java counts UTF-16 units. The length test against 20, and `charAt`, differ from Java for characters outside the Basic Multilingual Plane.
