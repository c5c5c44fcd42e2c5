# agi: conversation threads and the streamed-chat line decoder, in Dafny

This project models the three pieces of sequential logic behind the HTTP
plumbing of the `agi` Go client library for chat-completion services, and
proves properties of them.

- **`chat.Thread`** (`chat_thread.dfy`, configured by `chat_options.dfy`):
  a message list of fixed capacity `historySize + 1` whose slot 0 is the
  system prompt. New turns are appended until the list is full; after that
  slots 2.. move one place left, evicting the oldest non-system turn, and
  the new turn goes last. Empty prompts and empty turns are ignored. The
  thread is configured by option closures applied in order over a default
  record; they round the history size down to an even number, cap
  temperature and top-p at 1 and ignore non-positive values.
- **`ai.Thread`** (`ai_thread.dfy`): the older thread. The system prompt is
  a separate optional message; the history of capacity `historySize` evicts
  its index 0 with an explicit shift loop; `GetMessages` puts the prompt in
  front.
- **The `StreamChat` line loop** (`stream.dfy`): a streamed response is a
  sequence of lines. Blank lines are skipped. The line `data: [DONE]` sends
  a final event with `Done` set and ends the stream. Any other line loses
  at most one leading `data: `, is parsed as a chunk, and a chunk with at least one
  choice becomes an event whose `Done` is `finish_reason == "stop"`. Events
  go to the caller's sink in line order. The loop stops at the first parse
  error, the first sink error or the first done event, and returns that
  error or nil.

Shared pieces: `message.dfy` (the `Message{Role, Content}` record),
`optional.dfy` (an `Option` type for nil-able values) and `window.dfy`
(the "last `n` turns" window both threads are specified by).

How the model is built:

- Each thread is a class over an `array<Message>`, the slice's backing
  store, plus `count`, the slice's length. A ghost sequence `added` holds
  every turn added since construction. The object invariant `Valid()`
  says that the live history is `Window.Last(added, capacity)`, so FIFO
  eviction and ordering are invariants of the class.
- The chat thread's shift is Go's `copy`, which moves all elements at once;
  the model uses a simultaneous `forall` assignment for it. The ai thread's
  shift is the source's own `for i` loop.
- The stream loop is the method `SiliconStream.StreamChat`. It is proved
  equal to the recursive specification `Run`/`Decode`, and the lemmas about
  `Run` state the termination, ordering and error rules.
- JSON decoding is a parameter `parse: string -> Parsed`. The sink is a
  parameter `(calls so far, event) -> Accepted | Rejected(error)`. Go errors
  are values `Error(text)`.

Behaviour one might expect of such a library that the code does not have
(the model follows the code):

- The system prompt of `chat.Thread` is not optional: slot 0 always
  exists with role `system`. Its content can even be empty, through
  `WithPrompt("")`.
- Snapshots are not copies. `chat.Thread.GetMessages` returns the internal
  slice itself, and so does `ai.Thread.GetMessages` when there is no
  prompt.
- The decoder does not accumulate the streamed text. `StreamChat` keeps no
  such state; the accumulation exists only in commented-out code. `Text`
  and `StreamOfDeltas` state what a caller that concatenates would get.
- A line-buffer overrun is not a failure. `StreamChat` never checks
  `scanner.Err()`, so an overrun or read error just ends the input, and
  nil is returned.
- There is no lock. `ai.Thread`'s mutex is never locked and `chat.Thread`
  has none.

## Model

| member | source | states |
|---|---|---|
| `Window.LastSnoc` | chat/thread.go:77-85 | Adding a turn appends it while fewer than `n` turns are kept. Once `n` are kept, the oldest is evicted and the new turn goes last (FIFO, one for one). |
| `ChatOptions.ThreadOption.Apply` | chat/thread_option.go:23-79 | Each option writes only its own field. `WithPrompt` replaces the prompt, even with "", exactly when the prompt already set is non-empty. `WithHistorySize(s)` with `s > 0` sets the largest even number `<= s`. `WithTemperature`/`WithTopP` with a positive value set the smaller of it and 1. `WithTopK` takes a positive value. Every non-positive value leaves the record unchanged. |
| `ChatOptions.ApplyIdempotent` | chat/thread_option.go:23-79 | Applying any option twice equals applying it once. |
| `ChatOptions.ApplyKeepsRange` | chat/thread_option.go:48-79 | No option takes temperature or top-p out of (0,1] or top-k out of the positives, and none makes the history size odd or negative. |
| `ChatOptions.ConfiguredInRange` | chat/thread.go:24-38 | The defaults followed by any option list give temperature and top-p in (0,1], a positive top-k and an even, non-negative history size. |
| `ChatOptions.ApplyAllAppend` | chat/thread.go:36-38 | Options apply left to right: applying `a ++ b` equals applying `a` and then `b`. |
| `ChatOptions.LaterWins` | chat/thread.go:36-38 | A later option on the same field overrides an earlier one when it accepts its value. For the prompt, this needs the earlier option's prompt to be non-empty. |
| `ChatOptions.EmptyPromptSticks` | chat/thread_option.go:23-29 | After `WithPrompt("")` the prompt is "" whatever options follow, later `WithPrompt`s included, because the guard tests the existing prompt rather than the argument. |
| `ChatOptions.SizeOneLeavesNoHistory` | chat/thread_option.go:48-54 | `WithHistorySize(1)` yields history size 0, the configuration in which adding a turn panics. |
| `ChatThread.Thread.Messages` | chat/thread.go:77-85 | The list holds 1 to `historySize + 1` messages. Slot 0 has role `system`. The rest are the last `min(N, historySize)` added turns, in order. |
| `ChatThread.Thread.constructor` | chat/thread.go:22-55 | Options apply in order over the defaults. The list is exactly `[{system, prompt}]` with capacity `historySize + 1`. Roles and sampling values are those configured. |
| `ChatThread.Thread.SetPrompt` | chat/thread.go:57-61 | An empty prompt changes nothing. Otherwise only slot 0's content changes; its role stays `system` and the other slots are unchanged. |
| `ChatThread.Thread.AddUserMessage` | chat/thread.go:63-68 | An empty turn leaves the list unchanged. Otherwise `{userRole, content}` is added. Slot 0, the system prompt, is kept either way. Needs `historySize > 0`. |
| `ChatThread.Thread.AddBotMessage` | chat/thread.go:70-75 | An empty turn leaves the list unchanged. Otherwise `{botRole, content}` is added. Slot 0, the system prompt, is kept either way. Needs `historySize > 0`. |
| `ChatThread.Thread.AddMessage` | chat/thread.go:77-85 | Not full: the length grows by one and the message is last, earlier entries unchanged. Full: the length is unchanged, slot 0 is kept, `new[1..] == old[2..] + [message]`. Requires `historySize > 0`: with 0 the slice `messages[2:]` of a one-element list panics. |
| `ChatThread.Thread.GetMessages` | chat/thread.go:87-89 | Returns the system prompt followed by the window of recent turns. |
| `ChatThread.Thread.GetTemperature` | chat/thread.go:91-93 | Returns the configured temperature, which lies in (0,1]. |
| `ChatThread.Thread.GetTopP` | chat/thread.go:95-97 | Returns the configured top-p, which lies in (0,1]. |
| `ChatThread.Thread.GetTopK` | chat/thread.go:99-101 | Returns the configured top-k, which is positive. |
| `AiThread.Thread.History` | ai/thread.go:72-83 | The history never exceeds `historySize` and equals the last `min(N, historySize)` added turns, in order. |
| `AiThread.Thread.constructor` | ai/thread.go:30-65 | The prompt message is absent iff the configured prompt is "". Otherwise it is `{system, prompt}`. The history starts empty with capacity `historySize`. |
| `AiThread.Thread.AddAnswer` | ai/thread.go:67-70 | Every answer, the empty one included, is added as `{botRole, answer}`. |
| `AiThread.Thread.AddMessage` | ai/thread.go:72-83 | Not full: appended at the end. Full: the shift loop gives `new == old[1..] + [message]` with the length unchanged. Requires capacity at least 1: with 0 the write goes to index -1. |
| `AiThread.Thread.GetMessages` | ai/thread.go:85-91 | With a prompt: the prompt first, then the history, whatever was evicted. Without one: the history alone. |
| `AiThread.Thread.GetTemperature` | ai/thread.go:93-95 | Returns the configured temperature. |
| `AiThread.Thread.GetTopP` | ai/thread.go:97-99 | Returns the configured top-p. |
| `AiThread.Thread.GetTopK` | ai/thread.go:101-103 | Returns the configured top-k. |
| `SiliconStream.StripDataPrefix` | siliconflow/silicon_client.go:143 | Exactly one leading `data: ` is removed. A line without it is parsed unchanged. |
| `SiliconStream.ToResponse` | siliconflow/silicon_client.go:151-162 | The event takes model, creation time, role and content from the chunk and its first choice, and `DoneReason` from `FinishReason`. `Done` holds iff `FinishReason == "stop"`. |
| `SiliconStream.UnreadIsSuffix` | siliconflow/silicon_client.go:125-172 | Lines are read front to back: the unread lines are a suffix of the input. |
| `SiliconStream.CallsFollowLines` | siliconflow/silicon_client.go:125-172 | The sink calls are exactly the events of the lines read, in line order. Blank lines and chunks without choices produce none. |
| `SiliconStream.EmittedAtMostNonBlank` | siliconflow/silicon_client.go:128-130 | The lines yield at most as many events as there are non-blank lines; with `CallsFollowLines`, at most one sink call per non-blank line. |
| `SiliconStream.EarlierCallsAccepted` | siliconflow/silicon_client.go:164-170 | Earlier calls are kept as a prefix. Every call before the last was accepted by the sink and was not a done event. |
| `SiliconStream.Ending` | siliconflow/silicon_client.go:125-174 | The loop ends in exactly one way. (1) Input exhausted: nil, every call accepted and none done. (2) Parse failure: that error, every call accepted and none done; that no call is made for the failing line is `CallsFollowLines`. (3) Sink error: returned unchanged after that call. (4) Done event, sentinel included: nil after its call. In (2)-(4) the ending line is the last one read and is not blank. |
| `SiliconStream.NoReadAhead` | siliconflow/silicon_client.go:132-170 | Once a line ends the stream, extra input changes nothing but the unread lines. If the input ran out, extra lines are decoded from where the loop stopped. |
| `SiliconStream.BlankLinesIgnored` | siliconflow/silicon_client.go:128-130 | Dropping blank lines changes neither the calls, nor the error, nor how the loop ends. |
| `SiliconStream.StreamOfDeltas` | siliconflow/silicon_client.go:132-170 | K delta lines and then `data: [DONE]`, with a sink that accepts everything, give K calls with `Done` false, then one done call, then nil. The delivered text is the concatenation of the deltas. |
| `SiliconStream.HelloWorld` | siliconflow/silicon_client.go:125-174 | Deltas "Hel", "lo, " and "world" followed by the sentinel give four calls, the last one done, and the text "Hello, world". |
| `SiliconStream.StreamChat` | siliconflow/silicon_client.go:86-174 | A nil sink returns `fn is nil` before any line is read. Otherwise the loop's calls, its error and the lines it leaves unread are those of the specification `Decode`. |

## Left out

- Transport is not modelled. This covers `NewSiliconClient`, the request
  body, URL and headers built in `StreamChat`, context cancellation,
  `TranscribeAudio` (multipart upload, file I/O) and the whole DeepSeek
  client. All of it is HTTP and foreign-library calls.
- JSON decoding (`json.Unmarshal`) is the `parse` parameter. Request
  encoding is not modelled.
- `time.Unix` is kept as the pair "zero time or Unix seconds".
- `bufio.Scanner` is not modelled. The input is the sequence of lines
  already split, and the 512 KiB line limit is not modelled. An oversize
  line or a read error ends the scan, and the source then returns nil; in
  the model this is the input running out.
- The sink is a deterministic function of the earlier calls and the new
  event. Side effects it has beyond its reply are not modelled.
- The answer accumulation of siliconflow/silicon_service.go is not
  modelled: that file is entirely commented out. The constant and error
  value of siliconflow/const_silicon.go are not modelled either.
- ai/thread_option.go is not part of this model. `AiThread.Thread`'s
  constructor takes the options record as it stands after the options have
  been applied; the defaults of ai/thread.go:32-41 are therefore not
  modelled.
- Concurrency is not modelled. The mutex of `ai.Thread` is never locked
  and `chat.Thread` has none.
- `float32` temperature and top-p are reals. NaN, infinities and float
  rounding are not modelled.
- `historySize` is an unbounded integer, and array allocation in the model
  always succeeds. The panic of `make` for a capacity beyond Go's
  allocation limit (chat/thread.go:46, ai/thread.go:54), reachable with
  e.g. `WithHistorySize(1 << 50)`, is not modelled. `historySize + 1`
  itself cannot overflow, since the history size is 20 or an even
  `size / 2 * 2` of a positive `int`.
- The `api.Message` of `ai.Thread` has more fields than role and content
  (images, tool calls). The model keeps only role and content.
- `ChatThread.Thread.GetMessages`: returns a value, so it does not capture
  that the source hands out its internal slice. In the source, a later add
  can change an earlier snapshot.
- `AiThread.Thread.GetMessages`: returns a value. It does not capture that,
  without a prompt, the source returns its internal slice.
