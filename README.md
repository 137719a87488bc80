# Streaming image generation: relay and page, modelled in Dafny

The system streams an image that is generated in stages. The Express
handler `/generate-image` (server.js) receives a prompt and starts an
upstream generation. It relays every partial image to the browser as a
server-sent event record (`data: ` + JSON + blank line, section 9.2 of the
WHATWG HTML standard). It keeps the partial with the highest index and sends
that partial as the final image when the upstream reports completion. It
closes the stream with `done`, or with a single `error` record when the
upstream call throws.

In the browser, `StreamImageGenerator` (public/script.js) does the following:
- It reads the response body chunk by chunk into a `buffer`.
- It cuts the buffer into lines and hands every `data: ` line's JSON to
  `handleStreamData`.
- That function drives a small state machine: the current stage, the
  session id, the busy generate button, and the visibility of the image
  container and of the download section.
- The page also guards the prompt (trimmed, non-empty), the selected image
  and video files (type prefix and size limit), and the download link.

The project has these modules:

- `Text`: the JavaScript string operations used: `trim`, `startsWith`,
  `slice` and `split('\n')`. It also holds the reassembly lemmas for
  `split`/`pop`.
- `Json`: `JSON.stringify` and `JSON.parse` on the flat objects the stream
  carries, with their round trip proved.
- `Sse`: the four stream events and the object literal the relay writes
  for each. It also holds the record and the client's decoding of one line.
- `Relay`: the `/generate-image` handler as a method with its loop. It is
  proved against the pure functions `RetainAll` (argmax by index, first
  wins on ties) and `Relayed` (the events a run writes).
- `Client`: the `StreamImageGenerator` class, with the fields that the
  methods update in place. Beside it sit the reducer `Reduce`, the chunk
  feeding `Feed` and the guards as functions, with lemmas about them.
- `EndToEnd`: the relay's records read back by the page, in any chunking.

## Model

| member | source | states |
|---|---|---|
| Relay.HandleGenerateImage | server.js:28-107 | A missing or empty prompt is rejected exactly when the reply is the 400 reply with body `{error: 'Prompt is required'}`. It carries no stream headers and no events. Any other prompt gets status 200 and the five event-stream headers. The events written are `Relayed(up)`: the partials in arrival order up to the first completion, then `completed` carrying the retained partial and `done`; or, with no completion, `done` or one `error` with the thrown message. The stream is ended in every case. |
| Relay.Falsy | server.js:31 | Computes `!prompt` for a body field that is absent or a string: true for a missing prompt and for the empty string, false for any other string, spaces included (the relay does not trim). |
| Relay.Relayed | server.js:60-105 | Computes the events an accepted run writes. With a first completion at position k, they are the partials among the first k events, then `completed` with the retained image of those k events, then `done`. Without one, they are all partials, then `done` for a normal end or `error` with the thrown message. |
| Relay.Keep | server.js:71-74 | Computes one step of the accumulator: a partial image whose index is strictly greater than the retained index replaces the retained pair; any other event leaves it as it is. |
| Relay.RetainAll | server.js:57-74 | Computes the accumulator after a sequence of events: the initial pair (-1, null), then `Keep` for each event in order. |
| Relay.PartialEvents | server.js:63-78 | Computes the `partial` events relayed for a sequence of upstream events: one `{type, index, image}` per partial image, in arrival order, and nothing for other events. |
| Relay.RetainedIsFirstMax | server.js:57-74 | The accumulator `highestPartialIndex`/`lastPartialImage` after any prefix of events holds the partial whose index is the greatest. On equal indices the first one seen is kept, and the index must beat the initial -1. If no partial index exceeds -1, the accumulator is still the initial pair. |
| Relay.CompletedAt | server.js:80-92 | The position of the first completion event: it is a completion and no earlier event is one; `None` exactly when no event is a completion. |
| Relay.PartialEventsCount | server.js:60-78 | One `partial` event per partial image, in arrival order. Each carries no session id. Other upstream event types produce nothing. |
| Relay.RelayedShape | server.js:60-105 | Every accepted stream is partials, then at most one `completed` just before the last event. The last event is `done` exactly when a completion was seen or the upstream ended normally. It is `error` with the thrown message exactly when the upstream threw before any completion. |
| Relay.RelayedCount | server.js:60-96 | The number of events written is (partials before the first completion) + 2 when a completion was seen, and (all partials) + 1 otherwise. |
| Relay.CompletedCarriesHighest | server.js:80-90 | The `completed` event carries the image of the first maximal partial before the completion. Its image is null exactly when no partial before it had an index above -1. |
| Relay.IgnoresAfterCompletion | server.js:91 | After the first completion the handler reads nothing more: further events, and how the upstream then ends, do not change what is written. |
| Relay.OutOfOrderScenario | server.js:63-92 | Partials with indices 1 then 0, an unrelated event, a partial with index 2, then a completion: the three partials are relayed in arrival order, the unrelated event relays nothing, and the completion carries the index-2 image, followed by `done`. |
| Json.ParseStringify | public/script.js:425 | `JSON.parse` of what `JSON.stringify` wrote returns the same object: keys, order and values. |
| Json.StringifyShape | server.js:77 | The serialised object never contains a line feed and is delimited by braces, so trimming leaves it as it is. |
| Json.Stringify | server.js:77 | Computes `JSON.stringify` of a flat object: `{`, each member as its quoted key, `:` and its value, separated by commas, then `}`, with no whitespace. Strings get the escapes `JSON.stringify` writes. |
| Json.Parse | public/script.js:425 | Computes `JSON.parse` for a flat object whose values are `null`, integers or strings: the members in order, or `None` where `JSON.parse` throws or the text is some other value. Whitespace between tokens is allowed and escapes are decoded. |
| Json.Lookup | public/script.js:438-459 | Computes a field read such as `data.type`: the value of the last member with that key, as `JSON.parse` keeps the last of duplicate keys, or `undefined` (`None`) when no member has it. |
| Sse.ObjectRoundTrip | public/script.js:438-461 | The object the relay writes for an event, read the way `handleStreamData` reads fields by name, gives back the same event. |
| Sse.ToObject | server.js:64-68 | Computes the object literal the relay serialises for an event: `{type: "partial", index, image}` (lines 64-68), `{type: "completed", image}` with `null` for no image (84-87), `{type: "done"}` (95) and `{type: "error", message}` (100-103). |
| Sse.Record | server.js:77 | Computes one record as `res.write` sends it: `data: `, the serialised object, and two line feeds. |
| Sse.DataLine | server.js:77 | Computes the line of a record that carries the event: `data: ` followed by the serialised object. |
| Sse.Records | server.js:77 | Computes the records of a sequence of events: one `Record` per event, in the order written. |
| Sse.FromObject | public/script.js:438-461 | Computes the event `handleStreamData` acts on: the string `type` selects the case and the other fields are read by name. A `partial` needs an integer or `null` index, where `null` acts as index 0. An object of no known type gives nothing. |
| Sse.Payload | public/script.js:420-423 | Computes the JSON text of a line: the trimmed line must start with `data: `; then the untrimmed line less its first six characters is trimmed, and an empty result is skipped. |
| Sse.LineEvent | public/script.js:420-426 | Computes what one dispatched line delivers to `handleStreamData`: the event its payload parses to, or nothing when there is no payload or the parse fails. |
| Sse.PayloadOf | public/script.js:420-423 | A `data: ` line whose JSON text has no space at either end yields exactly that text as the payload. |
| Sse.DataLineRoundTrip | server.js:77 | The data line of a record, decoded by the client (trim check, slice, trim, `JSON.parse`, field reads), gives back the event written. |
| Sse.BlankLineIgnored | public/script.js:420 | The blank separator line of a record delivers nothing. |
| Sse.RecordLines | public/script.js:416-417 | One record splits into its data line and one blank line, and leaves nothing in the buffer. |
| Sse.RecordsLines | public/script.js:416-417 | All records of a stream, concatenated, split into exactly each data line followed by a blank line, with no fragment left. |
| Text.TrimStart | public/script.js:370 | The result is a suffix of the input and does not start with a character that `trim` removes. |
| Text.TrimEnd | public/script.js:370 | The result is a prefix of the input and does not end with a character that `trim` removes. |
| Text.Trim | public/script.js:370 | Computes `s.trim()`: leading, then trailing, whitespace and line terminators removed. |
| Text.StartsWith | public/script.js:420 | Computes `s.startsWith(p)`: `p` is no longer than `s` and equals the prefix of `s` of that length. |
| Text.Slice | public/script.js:421 | Computes `s.slice(n)` for a non-negative `n`: the characters from position `n` on, or the empty string when `n` is past the end. |
| Text.TrimEmpty | public/script.js:370-375 | A string trims to empty exactly when every character is one `trim` removes, so the prompt guard refuses exactly the prompts made only of such characters. |
| Text.Split | public/script.js:416 | Computes `split('\n')`: the pieces between line feeds, at least one, the last after the last line feed. |
| Text.CompleteLines | public/script.js:416-417 | Computes the lines `processBuffer` dispatches: every piece but the last. |
| Text.Fragment | public/script.js:417 | Computes the new buffer: the last piece, which `pop` removes. The fallback to `''` changes nothing, since that piece is always a string. |
| Text.LinesReassemble | public/script.js:416-417 | After `split`/`pop`: the kept buffer has no line feed and no dispatched line has one. The dispatched lines, each followed by a line feed, then the kept buffer, are exactly the old buffer. |
| Text.FeedStep | public/script.js:403-405 | Appending one chunk to the text read so far: the lines of the whole are the lines already dispatched, followed by the lines of the kept fragment plus the chunk. The kept fragments agree. |
| Client.FeedIsOneGo | public/script.js:395-406 | Feeding chunks one at a time through `buffer += chunk; processBuffer()` dispatches the lines, and keeps the fragment, of all chunks split in one go. |
| Client.Feed | public/script.js:397-406 | Computes the read loop on a sequence of chunks: each chunk is appended to the kept fragment, the complete lines are dispatched and the last piece is kept. `ReadStream` ends in exactly this state. |
| Client.ChunkBoundaryInvariance | public/script.js:397-406 | Any two chunkings of the same text dispatch the same line sequence and keep the same buffer. |
| Client.UndecodedLineSkipped | public/script.js:419-431 | A line that delivers nothing is skipped, and the lines after it in the same batch are still applied. Such a line is not a `data: ` line, has an empty payload, or has a payload whose parse fails. |
| Client.BusyUntilTerminal | public/script.js:454-456 | Only `done` or `error` re-enables the generate button: deliveries that are neither leave the busy flag unchanged. |
| Client.NoSessionWithoutId | public/script.js:441-451 | Without a session id in any event, `currentSessionId` stays null, and a hidden download section is never shown. |
| Client.Reduce | public/script.js:435-463 | Computes one event applied by `handleStreamData`. On `partial` the stage becomes index + 1; on `completed` the stage becomes 4 and the download section shows if a session is known. A truthy `sessionId` on either replaces the known one. `done` enables the button and `error` is `resetUI`. |
| Client.Truthy | public/script.js:441 | Computes JavaScript truthiness of an optional string, as tested on `sessionId` at lines 441, 448, 524 and 534: present and not empty. |
| Client.Started | public/script.js:567-575 | Computes the state `startGeneration` leaves: stage 0, no session, button disabled, container shown, download section hidden. |
| Client.Reset | public/script.js:590-597 | Computes the state `resetUI` leaves: stage 0, no session, button enabled, container and download section hidden. |
| Client.Session | public/script.js:369-413 | Computes the state after `generateImage` with a non-empty prompt. It starts from `Started`. A rejected request or a non-ok response gives `Reset`. A stream applies every line of the joined chunks, and a failing read then gives `Reset`. |
| Client.StuckWithoutTerminal | public/script.js:397-412 | A stream that ends normally without delivering `done` or `error` leaves the generate button disabled. |
| Client.FailureResets | public/script.js:408-412 | A rejected request, a non-ok response or a failing read ends in the state `resetUI` leaves: button enabled, stage 0, no session, container and download section hidden. |
| Client.SelectionGuards | public/script.js:259-279 | A file is selected, and its analyze button enabled, exactly when it passes its guard: `image/` and at most 10·1024·1024 bytes, or `video/` and at most 50·1024·1024 bytes. A refused file changes nothing, and the selections stay valid. |
| Client.IsImageFile | public/script.js:263-272 | Computes the image guard: the type starts with `image/` and the size is at most 10·1024·1024 bytes. |
| Client.SelectImage | public/script.js:259-279 | Computes `handleFileSelect` on the selections: a file that passes the image guard becomes `selectedFile` and enables the analyze button; otherwise nothing changes. |
| Client.IsVideoFile | public/script.js:140-149 | Computes the video guard: the type starts with `video/` and the size is at most 50·1024·1024 bytes. |
| Client.SelectVideo | public/script.js:136-156 | Computes `handleVideoFileSelect` on the selections: a file that passes the video guard becomes `selectedVideoFile` and enables the video analyze button; otherwise nothing changes. |
| Client.SizeBoundaries | public/script.js:269 | Both size limits are inclusive: exactly the limit is accepted and one byte more is refused. An image type is no video type, and the reverse. |
| Client.LinkFor | public/script.js:540-543 | The download URL is `/download/` followed by the session id. The file name is `ai_generated_`, the id, then `.png`. |
| Client.LinkForInjective | public/script.js:540-543 | Distinct session ids give distinct links. |
| Client.StreamImageGenerator.constructor | public/script.js:38-44 | Empty buffer, stage 0, no session, empty prompt and no selected files. The button and visibility flags are as the page markup sets them. |
| Client.StreamImageGenerator.UpdatePartialImage | public/script.js:465-466 | The stage becomes index + 1; nothing else changes. |
| Client.StreamImageGenerator.ShowFinalImage | public/script.js:492-493 | The stage becomes `totalStages` (4); nothing else changes. |
| Client.StreamImageGenerator.ShowDownloadButton | public/script.js:523-527 | Reveals the download section exactly when a session id is known, and never hides it. |
| Client.StreamImageGenerator.HideDownloadButton | public/script.js:529-531 | Hides the download section; nothing else changes. |
| Client.StreamImageGenerator.StartGeneration | public/script.js:567-582 | The button is disabled, the stage is 0, no session is known, the container is shown and the download section hidden. |
| Client.StreamImageGenerator.FinishGeneration | public/script.js:584-588 | Only re-enables the generate button. |
| Client.StreamImageGenerator.ResetUI | public/script.js:590-597 | The button is enabled, the container and download section are hidden, the stage is 0 and there is no session. |
| Client.StreamImageGenerator.HandleStreamData | public/script.js:435-463 | The new state is the reducer applied to the event the object reads as. On `partial` the stage becomes index + 1; on `completed` the stage becomes 4. In both cases a truthy `sessionId` replaces the known one, and `completed` reveals the download section exactly when a session is known. `done` re-enables the button; `error` resets the page. An object of no known type changes nothing. |
| Client.StreamImageGenerator.ProcessBuffer | public/script.js:415-433 | The new buffer is the trailing fragment and holds no line feed. The dispatched lines, each with its line feed, then the new buffer, are the old buffer. The state is the old state with every dispatched line applied in order. |
| Client.StreamImageGenerator.DispatchLine | public/script.js:419-431 | One line is applied: its event if it decodes to one, otherwise nothing (a parse failure is caught). |
| Client.StreamImageGenerator.GenerateImage | public/script.js:369-413 | A prompt that trims to nothing changes nothing. Otherwise the trimmed prompt is kept and the generation starts. The decoded chunks are fed through the buffer, which ends as the fragment of all chunks joined. A failed request, a non-ok response or a failing read resets the page. The final state is `Session`. |
| Client.StreamImageGenerator.ReadStream | public/script.js:395-406 | After the read loop, the buffer, the dispatched lines and the state are those of all chunks joined and split in one go. The lines dispatched and the buffer kept are exactly `Feed(chunks)`. |
| Client.StreamImageGenerator.DownloadImage | public/script.js:533-543 | No link exactly when no truthy session id is known; otherwise the link for that id. |
| Client.StreamImageGenerator.HandleFileSelect | public/script.js:259-279 | The inputs become `SelectImage` of the old inputs: the file and the enabled analyze button only when the file passes the image guard. |
| Client.StreamImageGenerator.HandleVideoFileSelect | public/script.js:136-156 | The inputs become `SelectVideo` of the old inputs: the file and the enabled analyze button only when the file passes the video guard. |
| EndToEnd.RecordReduces | public/script.js:416-426 | The two lines of a relay record, applied by the page, apply exactly that record's event. |
| EndToEnd.WireReduces | public/script.js:419-431 | The lines of the records of a sequence of events, applied by the page, apply those events in order. |
| EndToEnd.ChunkedRecordsReduce | public/script.js:397-406 | However the records arrive in chunks, the page applies the relayed events in order and keeps nothing in its buffer. |
| EndToEnd.PartialsMoveStage | public/script.js:439-444 | Relayed partials change only the stage, to the last partial's index + 1. |
| EndToEnd.RelayedReduce | public/script.js:435-463 | Applied to the page as `startGeneration` leaves it, the relayed events re-enable the button. They leave no session and the download section hidden. The container shows stage 4 after a completion, or the last partial's stage after a normal end. After an upstream error the page is reset. |
| EndToEnd.GenerationEndToEnd | public/script.js:369-413 | A non-empty prompt passes the relay's guard. A stream of the relay's records, read to its end in any chunks, leaves the page in the state `RelayedReduce` describes: since no record carries a session id, `currentSessionId` stays null and the download section stays hidden. |

## Left out

- Relay.HandleGenerateImage: the reply lists the events in the order
  written. Each goes on the wire as `Sse.Record`, i.e. `data: `, the
  serialised object and a blank line. `Sse.Records` maps the events to
  those strings one for one; the method does not build the strings itself.
- Relay.Falsy: the prompt is modelled as missing or a string. In the relay
  `req.body.prompt` can be any JSON value: `null`, `0` and `false` also get
  the 400 reply, while a non-zero number, `true`, an array or an object
  passes the guard and is handed to the upstream call.
- Json.Stringify: members are written in the order of the sequence.
  `JSON.stringify` writes keys that are array indices ("0", "1", ...) first,
  in ascending order. The two agree for objects without such keys, which
  includes every object `Sse.ToObject` builds.
- Relay.HandleGenerateImage: the upstream is a parameter, a list of events
  and how the stream ends. A throw from the initial `openai.responses.create`
  call is the empty list with a throw. A throw from `res.write` itself is not
  modelled.
- The OpenAI client and its model and tool parameters are not modelled.
  Neither are Express setup, static serving, CORS, `dotenv`, the console
  logs and process shutdown. They are foreign calls and process bootstrapping.
- Rendering is not modelled. This covers the `img` elements with their
  `onload`/`onerror` callbacks, `innerHTML`, the status texts, the progress
  bar percentage (floating point), and the tab and drag-and-drop handlers.
  Only the stage number and the visibility and disabled flags are kept.
- `fetch`, `FormData`, `FileReader`, the clipboard, `setTimeout`, and
  `analyzeImage`/`analyzeVideo` are not modelled. They are browser and
  network APIs whose server routes are not part of this model.
- Client.StreamImageGenerator.GenerateImage: a generation runs to its end
  before another starts. In the page, `generateImage` is asynchronous and does
  not check for one in progress, and the Ctrl+Enter handler
  (public/script.js:55-58) calls it even while the button is disabled. A
  second call then sets `this.buffer` to `''`, discarding the first read
  loop's fragment, and both loops append to the same buffer. The ensures of
  `GenerateImage` and `ReadStream`, and the chunk-boundary lemmas, hold only
  for generations that do not overlap.
- `TextDecoder` is not modelled: chunks are already-decoded strings.
- The session store and the `/download` endpoint are not part of this model.
  No record ever carries a session id, so the download section is never
  revealed.
- JSON is restricted to flat objects whose values are `null`, integers or
  strings. Fractions, exponents, nested values and surrogate-pair escapes are
  not read: text using them is treated as a parse failure.
- Sse.FromObject: a `partial` whose `index` is a string or is missing
  delivers nothing. In the page a string index makes the stage a string
  (`"2" + 1` is `"21"`), and a missing one makes it NaN. The page also still
  takes a truthy `sessionId` from such a record as `currentSessionId`, which
  the model drops. A boolean index is
  outside the JSON this model reads. A `null` index is modelled: it moves the
  stage to 1.
- Client.Reduce: JavaScript numbers are doubles, but indices and stages here
  are unbounded integers. `index + 1` and the `>` comparison at
  server.js:71 are exact here, but not in the page and the relay for values
  beyond 2^53, where `JSON.parse` already rounds them.
- Sse.FromObject: a non-string `sessionId`, `image` or `message` reads as
  absent.
- Client.StreamImageGenerator.constructor: the initial button and visibility
  flags come from the page markup, which is a parameter here.
