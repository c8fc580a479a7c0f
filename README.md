# NewChat streaming reply handler

A Dafny model of the Enter handler (`onKeyDown`) of the `NewChat` screen of
chatbot-ui. When the user presses Enter without Shift, the handler does this:

1. It ignores a blank input.
2. It appends the user's message to the chat and posts the text to the chat
   endpoint.
3. When the response has a readable body, it clears the text area and appends
   an empty `system` message as a placeholder.
4. It reads the streamed reply. Each decoded chunk is added to a line buffer,
   which is split on `"\n"`. Every complete line whose trimmed form starts with
   `data:` has its payload handed to the JSON parser. The `token` of every
   payload that parses is appended to the placeholder's content.

The model has four modules, plus `Sequences` (`sequences.dfy`), which holds the
sequence identities they use as single proof steps:

- `LineBuffer` (`line_buffer.dfy`): `split("\n")` and the buffer step. This
  covers which lines a text completes and which text stays in the buffer.
- `EventParser` (`event_parser.dfy`): `trim` over the ECMAScript whitespace
  set, the `data:` test, and the payload with `^data:\s*` removed. The JSON
  parser is an oracle (`Parser`), a function from payload to `Token(text)` or
  `ParseError`.
- `Conversation` (`conversation.dfy`): messages, and the `prev.map` update
  that extends the message with a given id.
- `NewChat` (`new_chat.dfy`) has two parts:
  - `HandleEnter` is a specification function: the whole handler on a given
    response, as a value.
  - The class `Chat` holds the component state (`input`, `messages`, and the
    request bodies posted). Its method `OnEnter` runs the handler step by step,
    with the read loop and the per-line loop. It is proved equal to
    `HandleEnter`.

The network is a `Response` value:

- `FetchFailed`: the request throws.
- `NoBody`: there is no reader.
- `Body(chunks, end)`: already-decoded chunks, followed by either the end of
  the body or a read error.

The two ids that `crypto.randomUUID()` would produce are parameters.

Four behaviours of the handler are easy to miss, and the model follows the
code:

- The user message holds the untrimmed input.
- Text left in the buffer when the stream ends is dropped, not flushed.
- A failed request leaves the user message in the list with no placeholder.
- The text area is cleared only once a reader has been obtained.

Also, appending and extending never report a duplicate or missing id: an
update for an id that is not in the list changes nothing.

## Model

| member | source | states |
|---|---|---|
| LineBuffer.Split | apps/chatbot-ui/src/features/new-chat/index.tsx:60 | `buffer.split("\n")` has at least one segment, no segment contains a line feed, and joining the segments with "\n" gives back the text |
| LineBuffer.SplitJoin | apps/chatbot-ui/src/features/new-chat/index.tsx:60 | splitting undoes joining: segments without line feeds are recovered exactly, so the split is the only such decomposition |
| LineBuffer.CompleteLines | apps/chatbot-ui/src/features/new-chat/index.tsx:60-65 | the lines handed to the inner loop (every segment but the popped last one) contain no line feed |
| LineBuffer.Remainder | apps/chatbot-ui/src/features/new-chat/index.tsx:58-63 | the retained buffer contains no "\n", is a suffix of old buffer + chunk, and is either all of it or preceded by a "\n" (the text after the last line feed) |
| LineBuffer.Reassemble | apps/chatbot-ui/src/features/new-chat/index.tsx:58-63 | the emitted lines joined with "\n", then "\n", then the new buffer reconstruct old buffer + chunk; no line is emitted exactly when the text has no "\n", and then the whole text stays in the buffer |
| LineBuffer.SplitAppend | apps/chatbot-ui/src/features/new-chat/index.tsx:58-63 | splitting a longer text gives the earlier complete lines, followed by the split of the old remainder extended by the new chunk |
| LineBuffer.CompleteLinesAppend | apps/chatbot-ui/src/features/new-chat/index.tsx:54-65 | the buffer step composes: the lines completed by text + chunk are those of the text, then those of its remainder + chunk, and the buffers agree, so chunk boundaries do not change the lines |
| LineBuffer.FragmentCompletesNoLine | apps/chatbot-ui/src/features/new-chat/index.tsx:54-63 | a chunk without "\n" completes no line and only lengthens the buffer |
| EventParser.IsWhitespace | apps/chatbot-ui/src/features/new-chat/index.tsx:66-68 | the set that `trim` strips and `\s` matches includes the carriage return, so a line ending in CRLF is trimmed, and contains no visible ASCII character, so none of `data:` is ever stripped |
| EventParser.LeadingWhitespace | apps/chatbot-ui/src/features/new-chat/index.tsx:66 | the count of leading whitespace stops at the first non-whitespace character |
| EventParser.TrailingWhitespace | apps/chatbot-ui/src/features/new-chat/index.tsx:66 | the count of trailing whitespace stops at the last non-whitespace character |
| EventParser.Trim | apps/chatbot-ui/src/features/new-chat/index.tsx:19 | `trim()` is empty exactly when the leading whitespace is the whole text, and otherwise starts and ends with a non-whitespace character |
| EventParser.TrimParts | apps/chatbot-ui/src/features/new-chat/index.tsx:66 | `line.trim()` removes only whitespace and only at the two ends: the line is whitespace, then the trimmed text, then whitespace |
| EventParser.TrimEmpty | apps/chatbot-ui/src/features/new-chat/index.tsx:19 | `!text.trim()` holds exactly when every character of the input is whitespace |
| EventParser.Classify | apps/chatbot-ui/src/features/new-chat/index.tsx:66-68 | a line is a data event iff its trimmed form starts with `data:`, and a non-empty payload neither starts nor ends with whitespace |
| EventParser.DataPayload | apps/chatbot-ui/src/features/new-chat/index.tsx:66-68 | the trimmed data line is `data:`, then whitespace only, then the payload (the `^data:\s*` replacement removes exactly the prefix and the whitespace after it) |
| Conversation.Extended | apps/chatbot-ui/src/features/new-chat/index.tsx:72-76 | the `map` callback keeps the message's id and role and only lengthens its content; a message with another id comes back unchanged |
| Conversation.ExtendById | apps/chatbot-ui/src/features/new-chat/index.tsx:71-77 | the `map` update returns one message for every message of the list (with `ExtendFrame`: order, ids and roles kept, only the target extended by the token) |
| Conversation.ExtendFrame | apps/chatbot-ui/src/features/new-chat/index.tsx:71-77 | the `map` update keeps the length, order, every id and role, and every message with another id; a message with the target id gets the token appended to its content |
| Conversation.ExtendByAbsentId | apps/chatbot-ui/src/features/new-chat/index.tsx:71-77 | extending by an id no message carries leaves the list as it was |
| Conversation.ExtendTwice | apps/chatbot-ui/src/features/new-chat/index.tsx:71-77 | two successive extensions of one message by a and b equal one extension by a + b |
| Conversation.ExtendByEmpty | apps/chatbot-ui/src/features/new-chat/index.tsx:71-77 | extension by the empty token is the identity |
| Conversation.ExtendLast | apps/chatbot-ui/src/features/new-chat/index.tsx:49-52 | when only the last message (the placeholder) has the id, extension appends the token to it and leaves every earlier message untouched |
| Conversation.ExtendKeepsIdsUnique | apps/chatbot-ui/src/features/new-chat/index.tsx:71-77 | extension keeps the set of ids and their uniqueness |
| Conversation.IdsAppend | apps/chatbot-ui/src/features/new-chat/index.tsx:27 | appending a message (`[...prev, message]`) adds exactly its id to the ids of the list |
| Conversation.AppendFreshKeepsIdsUnique | apps/chatbot-ui/src/features/new-chat/index.tsx:22-27 | appending a message with a fresh id (`[...prev, message]`) keeps the ids unique and adds exactly that id |
| NewChat.TokensAppend | apps/chatbot-ui/src/features/new-chat/index.tsx:65-82 | the tokens of two runs of lines are those of the first run, then those of the second |
| NewChat.FlattenAppend | apps/chatbot-ui/src/features/new-chat/index.tsx:58 | concatenating two runs of texts is concatenating their concatenations (the decoded text of two runs of chunks) |
| NewChat.ApplyLine | apps/chatbot-ui/src/features/new-chat/index.tsx:66-80 | one line of the inner `for` neither adds nor removes a message (with `ApplyLineIsExtend`: it extends the target by the line's token, or changes nothing) |
| NewChat.ApplyLines | apps/chatbot-ui/src/features/new-chat/index.tsx:65-82 | the inner `for` over the lines neither adds nor removes a message (with `ApplyLinesIsExtend`: it is one extension by the in-order concatenation of the tokens) |
| NewChat.ApplyLineIsExtend | apps/chatbot-ui/src/features/new-chat/index.tsx:65-82 | one line extends the system message by its token if it is a data line whose payload parses, and by nothing otherwise |
| NewChat.ApplyLinesIsExtend | apps/chatbot-ui/src/features/new-chat/index.tsx:65-82 | applying the lines one after another is a single extension by the in-order concatenation of their tokens |
| NewChat.ApplyLinesFrame | apps/chatbot-ui/src/features/new-chat/index.tsx:65-82 | processing lines keeps length, ids and roles, leaves every other message unchanged, and only grows the target's content |
| NewChat.ApplyLinesAppend | apps/chatbot-ui/src/features/new-chat/index.tsx:54-82 | processing two runs of lines in one go or chunk by chunk gives the same list |
| NewChat.ApplyLinesKeepsIdsUnique | apps/chatbot-ui/src/features/new-chat/index.tsx:65-82 | processing lines keeps message ids unique |
| NewChat.SkippedLine | apps/chatbot-ui/src/features/new-chat/index.tsx:66-80 | a line that is not a data line, or whose payload the parser rejects, changes nothing, and the lines after it are still processed |
| NewChat.HandleEnter | apps/chatbot-ui/src/features/new-chat/index.tsx:14-88 | the handler does nothing iff the input is all whitespace; otherwise a request that throws ends as a failed request, a response without a reader ends as a missing reader, and a body ends as completed or interrupted according to how the stream ended; a failed request or a missing reader leaves exactly the untrimmed user message appended, and with a body exactly two messages are appended |
| NewChat.PlaceholderReply | apps/chatbot-ui/src/features/new-chat/index.tsx:49-52 | when the placeholder is the only message with its id, the lines fill it with the in-order concatenation of their tokens and leave the messages before it untouched |
| NewChat.StreamedReply | apps/chatbot-ui/src/features/new-chat/index.tsx:22-83 | with a body and fresh ids the list is the old list, then the user message with the untrimmed input, then the system message whose content is the in-order concatenation of the tokens of every complete data line that parsed |
| NewChat.TrailingFragmentIgnored | apps/chatbot-ui/src/features/new-chat/index.tsx:54-63 | a trailing fragment without "\n" when the stream ends is never applied: the result is the same as without it |
| NewChat.FlattenCut | apps/chatbot-ui/src/features/new-chat/index.tsx:58 | cutting one chunk in two leaves the decoded text of the chunks unchanged |
| NewChat.ReadLoop | apps/chatbot-ui/src/features/new-chat/index.tsx:54-83 | the read loop chunk by chunk never adds or removes a message, and the buffer it keeps never holds a line feed (with `ReadLoopIsWhole`: it applies the complete lines of the whole decoded text) |
| NewChat.ReadLoopIsWhole | apps/chatbot-ui/src/features/new-chat/index.tsx:54-83 | reading chunk by chunk (append to the buffer, apply the complete lines, keep the rest) leaves the same list as applying the complete lines of the whole decoded text, and leaves as buffer the text after its last "\n" |
| NewChat.ChunkBoundaryInvariance | apps/chatbot-ui/src/features/new-chat/index.tsx:54-65 | two runs of chunks with the same decoded text, however the chunk boundaries fall, leave the read loop with the same list and the same buffer |
| NewChat.Chat.constructor | apps/chatbot-ui/src/features/new-chat/index.tsx:10-12 | the component starts with an empty text area and an empty message list |
| NewChat.Chat.ApplyLinesInPlace | apps/chatbot-ui/src/features/new-chat/index.tsx:65-82 | the inner `for` leaves the list equal to `ApplyLines` of the list before it over those lines, and changes nothing else |
| NewChat.Chat.ReadChunk | apps/chatbot-ui/src/features/new-chat/index.tsx:58-82 | one pass of the read loop leaves as buffer the text after the last "\n" of old buffer + chunk, and applies exactly the complete lines of that text |
| NewChat.Chat.ReadStream | apps/chatbot-ui/src/features/new-chat/index.tsx:45-83 | the read loop leaves the list equal to the complete lines of the concatenated chunks applied to the list before it, whatever the chunk boundaries, and changes nothing else |
| NewChat.Chat.OnEnter | apps/chatbot-ui/src/features/new-chat/index.tsx:14-88 | the handler's new list and outcome are `HandleEnter` of the old list and input; ids stay unique; a request is posted iff the input is not blank; the text area is cleared iff a reader was obtained |

## Left out

- Network I/O is not modelled: `fetch`, `getReader` and `reader.read` become the `Response` value. `TextDecoder` is also outside the model, so chunks arrive already decoded. A stream that never ends is not modelled.
- `JSON.parse` and `parsed.token` are folded into one oracle, `Parser`. The model therefore does not say what text an odd payload yields. For example, a payload with no `token` field appends the string `undefined`. A payload that parses to `null` throws inside the state updater, outside the `try`.
- `crypto.randomUUID` is replaced by the parameters `userId` and `systemId`.
- NewChat.Chat.OnEnter: requires that the two ids be distinct and not yet in the list. The source relies on random UUIDs not colliding.
- React `useState` is modelled with each updater applied at once and in order. Batching, asynchronous scheduling and overlapping submissions are not modelled.
- The keyboard test (Enter without Shift, `preventDefault`) is not modelled, and neither is `console.error` logging.
- The request's URL and headers are not modelled. Only its JSON body (username and message) is recorded.
- Rendering, class-name selection and the greeting are UI and are not modelled.
