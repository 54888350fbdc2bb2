# grok-free-web-api-vercel, modelled in Dafny

The repository is a Next.js gateway. It accepts OpenAI-style chat requests on
`/v1/chat/completions`, forwards them to Grok's web endpoint and translates
Grok's line-oriented streamed answer back into OpenAI chat-completion chunks
sent as server-sent events. Its library adds four pieces:

- a codec between Grok ids and `chatcmpl-…` ids;
- a fetch wrapper with retries and back-off;
- a fixed-window rate limiter;
- a mock generator that simulates completions without calling any model.

This project models that core and proves what it promises.

| file | module | models |
|---|---|---|
| `wrappers.dfy` | `Wrappers` | `Option` and `Result` |
| `arith.dfy` | `Arith` | `Math.ceil(x / d)` and `Math.floor(ms / 1000)` on integers |
| `strings.dfy` | `Strings` | the JavaScript string operations used: `indexOf`, `split`, first-match `replace`, one-character global `replace`, `trim`, `String(n)` |
| `base64.dfy` | `Base64` | base 64 as in section 4 of RFC 4648 |
| `chat_id.dfy` | `ChatId` | `encodeChatId` and `decodeChatId` |
| `retry.dfy` | `Retry` | `fetchWithRetry`, as a loop and as a recursive specification |
| `rate_limit.dfy` | `RateLimit` | `rateLimit`, as a class over its map, with a sweep loop |
| `openai.dfy` | `OpenAi` | messages and the frames of a streamed answer |
| `mock_ai.dfy` | `MockAi` | `generateChatCompletion` and `generateChatCompletionStream` |
| `line_buffer.dfy` | `LineBuffer` | the line reassembly of `processGrokResponse`, as functions |
| `grok_stream.dfy` | `GrokStream` | what `processGrokResponse` makes of each line, and of a whole run, as functions |
| `completions.dfy` | `Completions` | `POST` and `processGrokResponse` as methods of a `Route` class over the conversation map, writing to a `Writer` |

## How the model is built

The route's methods follow the source step by step, as imperative Dafny:

- `Post` is the chain of guard checks, then the history update and the loop that builds `responses`;
- `HandleLine`, `DrainLines` and `StreamBody` are the inner and outer read loops;
- `ProcessGrokResponse` adds the status checks and the final close;
- `Serve` composes `POST` with the `processGrokResponse` it starts.

Each method is proved against pure functions: `Validate`, `RequestBodyFor`,
`CompleteLines`/`Remainder`, `Classify`, `ProcessLines` and `Translate`.
The properties the source promises are then proved as lemmas about those
functions. `FetchWithRetry` and `RateLimiter.RateLimit` are proved the same
way, against `Retrying` and `Step`. So is `MockAi.StreamWords`, against the
role, word and stop chunks with a loop invariant.

Everything outside the program is a parameter:

- whatever `fetch` does, and the body chunks it delivers;
- `JSON.parse` of a line, as `string -> GrokEvent`;
- SHA-256, as `string -> Digest` giving 32 bytes;
- the clock.

## Where the code and the repository's description differ

The model follows the code:

- A thinking fragment is wrapped in `<Thinking>` markers on its own. There is no state that opens a span and closes it later.
- The conversation history gets one entry per assistant fragment, thinking markers included, and not one entry per answer.
- A stop chunk is written for every soft-stop event, so a stream can carry several. The fallback stop is written only when none was.
- The route calls plain `fetch`, not `fetchWithRetry`. A `FetchFailed` upstream stands for the single attempt.
- The route always answers with an event stream. There is no non-streaming aggregation of the answer.
- The substitution of `+`, `/`, `=` by `x`, `y`, `z` is not undone exactly. The reverse substitution gives the base 64 text back only when that text had no `x`, `y` or `z` of its own (`RestoreCleanIff`). Decoding an id gives the first 8 digest bytes back exactly when `RoundTrips` holds of the digest text (`DecodeEncodeChatId`). `RoundTrips` means three things:
  - no `x` or `y` among the 11 characters those bytes are read from;
  - any `z` stands in a trailing run only;
  - the text before that run keeps at least 11 characters, and its length is not 1 more than a multiple of 4.
- The route's `SENDER_TO_ROLE` lacks the `ASSISTANT` entry of the library's copy. With the `|| "assistant"` default both tables give the same role (`SenderTablesAgree`).
- A header `Bearer b` without a comma is accepted. The token is then `undefined`, and the cookie reads `auth_token=undefined`.
- The chunks always carry the model `grok-3`, whatever model was requested.

## Model

| member | source | states |
|---|---|---|
| `Arith.CeilDiv` | lib/rate-limit.ts:46 | `Math.ceil(x / d)` is the least integer `r` with `x <= d * r` |
| `Arith.Seconds` | app/v1/chat/completions/route.ts:208 | `Math.floor(ms / 1000)`: the whole seconds, rounded down, also for negative times |
| `Strings.IndexOf` | app/v1/chat/completions/route.ts:232 | `indexOf` finds an occurrence, no earlier one exists, and `None` means none exists at all |
| `Strings.Split` | app/v1/chat/completions/route.ts:74 | `split` with a non-empty separator always gives at least one piece |
| `Strings.JoinSplit` | app/v1/chat/completions/route.ts:74 | joining the pieces of a split with the separator gives the string back |
| `Strings.SplitPiecesLackSeparator` | app/v1/chat/completions/route.ts:74 | no piece of a split contains the separator |
| `Strings.RemoveFirst` | lib/grok-utils.ts:51 | `replace` with a string pattern removes exactly the first occurrence, and leaves a string without one unchanged |
| `Strings.RemoveFirstOfPrefix` | lib/utils.ts:14 | removing a prefix the string starts with leaves the rest |
| `Strings.ReplaceChar` | lib/grok-utils.ts:40 | a global one-character `replace` keeps the length and replaces each character on its own |
| `Strings.Trim` | app/v1/chat/completions/route.ts:233 | `trim` gives the middle of the text: what is cut off on either side is all white space, the empty string comes back exactly for all-white-space text, and otherwise the result neither starts nor ends with white space |
| `Strings.DecimalString` | app/v1/chat/completions/route.ts:95 | `String(n)` starts with `-` exactly for a negative `n`; the digits that follow, or the whole text, are decimal digits whose value is `\|n\|`, with no leading zero unless `n` is 0 |
| `Base64.Encode` | lib/grok-utils.ts:38 | base 64 text has 4 characters per 3 bytes started, and no padding when the length is a multiple of 3 |
| `Base64.Decode` | lib/grok-utils.ts:55 | decoding succeeds exactly when the text before the trailing `=` is all alphabet and does not leave a single sextet over; it then gives 3 bytes per 4 characters, rounded down |
| `Base64.DecodeSextetsLength` | lib/grok-utils.ts:55 | the sextets decode exactly when their count is not 1 more than a multiple of 4, and the byte count is 3/4 of it, rounded down |
| `Base64.NonAlphabetFails` | lib/utils.ts:18 | for the strict decoder of RFC 4648: a character outside the alphabet that is not `=` makes decoding fail, wherever it stands |
| `Base64.DecodeEncode` | lib/grok-utils.ts:38-55 | decoding undoes encoding for every byte sequence |
| `Base64.DecodeEncodeSextets` | lib/grok-utils.ts:38-55 | the sextet groups decode back to the bytes they encode |
| `Base64.StripPaddingOf` | lib/utils.ts:18 | trailing `=` after text that does not end in `=` is dropped, and nothing else is |
| `Base64.StripPaddingAppend` | lib/utils.ts:18 | appending `=` never changes what decodes |
| `ChatId.CleanSymbols` | app/v1/chat/completions/route.ts:37 | the three replacements map `+`, `/`, `=` to `x`, `y`, `z` character by character and keep the length |
| `ChatId.RestoreSymbols` | lib/utils.ts:16 | the reverse replacements map `x`, `y`, `z` to `+`, `/`, `=` character by character |
| `ChatId.DigestText` | app/v1/chat/completions/route.ts:33-35 | the base 64 text of 24 digest bytes is 32 alphabet characters without padding |
| `ChatId.EncodeChatId` | lib/grok-utils.ts:34-42 | the id is `chatcmpl-` and then exactly 32 letters and digits, the whole substituted text, which `slice(0, 32)` does not cut |
| `ChatId.EncodeNumberAsText` | lib/grok-utils.ts:36 | a number and its decimal text give the same id |
| `ChatId.BigEndian` | lib/grok-utils.ts:57 | `readBigUInt64BE` over `n` bytes is below 256^n |
| `ChatId.DecodePayload` | lib/utils.ts:16-23 | the decoded value, when there is one, is below 2^64 |
| `ChatId.DecodeChatId` | lib/grok-utils.ts:48-61 | `decodeChatId` never throws: it gives `None` or a value below 2^64 |
| `ChatId.DecodeStripsFirstPrefixOnly` | lib/utils.ts:14 | only the first `chatcmpl-` is removed |
| `ChatId.DoublePrefixFails` | lib/grok-utils.ts:51-58 | only the first prefix is stripped, so with the strict decoder an id with the prefix twice fails on the `-` of the second |
| `ChatId.HyphenFails` | lib/grok-utils.ts:53-58 | with the strict decoder, a `-` after the prefix makes decoding fail |
| `ChatId.ShortPayloadFails` | lib/utils.ts:18-20 | fewer than 11 characters after the prefix cannot give 8 bytes, so decoding fails |
| `ChatId.RestoreCleanIff` | lib/grok-utils.ts:40-53 | restoring undoes the substitution exactly when the base 64 text had no `x`, `y` or `z` |
| `ChatId.DecodeWithAddedPadding` | lib/grok-utils.ts:55 | the `==` appended after unpadded text changes nothing |
| `ChatId.DigestTextDecodes` | lib/grok-utils.ts:38-55 | the digest text with `==` added decodes to the 24 digest bytes |
| `ChatId.DecodeCleanDigestText` | lib/grok-utils.ts:40-57 | the substituted digest text decodes to the big-endian value of the first 8 digest bytes exactly when the digest text `RoundTrips` |
| `ChatId.NoSymbolsRoundTrip` | lib/grok-utils.ts:40-53 | a digest text without `x`, `y` and `z` `RoundTrips` |
| `ChatId.BigEndianInjective` | lib/grok-utils.ts:57 | `readBigUInt64BE` reads different bytes of one length as different numbers |
| `ChatId.DigestSextets` | lib/grok-utils.ts:38-57 | the digest text is all alphabet, its sextets decode to the 24 digest bytes, and the first 11 of them give the first 8 bytes |
| `Base64.DecodeSextetsFirst8` | lib/grok-utils.ts:55-57 | the first 8 decoded bytes depend only on the first 11 sextets |
| `Base64.First8Injective` | lib/grok-utils.ts:55-57 | two runs of 11 sextets that give the same 8 bytes agree in the first 10 sextets and in the high 4 bits of the 11th |
| `ChatId.DecodeEncodeChatId` | lib/grok-utils.ts:34-61 | round trip: decoding an encoded id gives the big-endian value of the first 8 digest bytes exactly when the digest text `RoundTrips`, in both directions |
| `Retry.Accepted` | lib/grok-utils.ts:96 | only a response ends the loop; an ok one always does, and one with a status to retry that is not ok never does |
| `Retry.FailureMessage` | lib/grok-utils.ts:106-117 | a retried response gives `Request failed with status …`, an abort the 30-second timeout message, and any other error its own message |
| `Retry.Backoff` | lib/grok-utils.ts:122 | with a factor of at least 1 every wait is at least 1000 ms |
| `Retry.Run` | lib/grok-utils.ts:75-127 | from attempt `attempt` on: with no attempt left nothing is called or waited and an error comes back; otherwise `fetch` is called at least once and at most up to `retries`; waits are only added, one per call except the one whose response is returned |
| `Retry.Retrying` | lib/grok-utils.ts:66-128 | a whole call makes at most `max(0, retries)` calls, with one wait per call except the one whose response is returned |
| `Retry.Backoffs` | lib/grok-utils.ts:122 | the wait after attempt `k` is `backoffFactor^k * 1000` ms |
| `Retry.FetchWithRetry` | lib/grok-utils.ts:66-128 | the loop returns, calls `fetch` and waits exactly as the recursive specification `Retrying` says |
| `Retry.RunShape` | lib/grok-utils.ts:75-127 | from any attempt on: it returns the first accepted response with no later call, or, when all attempts fail, the last failure's message after calling `fetch` for each of them; it waits after every failed attempt |
| `Retry.RetryingReturnsFirstAccepted` | lib/grok-utils.ts:75-98 | `fetch` is called at most `retries` times; a response comes back exactly when some attempt within the bound was accepted, and it is the first such response |
| `Retry.RetryingExhausted` | lib/grok-utils.ts:106-127 | when every attempt fails: `retries` calls, a wait after each call including the last, and the last failure's message thrown |
| `Retry.RetryingWithoutAttempts` | lib/grok-utils.ts:127 | with `retries <= 0` there is no call and no wait, and "Request failed after retries" is thrown |
| `Retry.RetryingTwoUnavailable` | lib/grok-utils.ts:69-71 | with the defaults, two 503 answers and then a 200 give three calls, waits of 1 and 2 seconds, and the 200 |
| `RateLimit.Swept` | lib/rate-limit.ts:17-22 | the sweep keeps exactly the windows ending at `now` or later, unchanged |
| `RateLimit.Step` | lib/rate-limit.ts:14-37 | after a call the identifier has a window ending no earlier than `now`, no other key is added, and when every window counted at least one request, every window still does |
| `RateLimit.Report` | lib/rate-limit.ts:40-47 | `limit` is 10, `remaining` is not negative, `success` exactly when the count is at most 10, and `reset` is the window's end in seconds, rounded up |
| `RateLimit.RateLimiter.constructor` | lib/rate-limit.ts:12 | the limiter starts with no windows, which keeps the invariant `Valid` |
| `RateLimit.RateLimiter.RateLimit` | lib/rate-limit.ts:14-48 | the sweep loop and the update leave the map that `Step` describes, and the report is that of the identifier's window; it keeps `Valid` (every window counts at least one request), so `remaining` is below 10 |
| `RateLimit.StepEffect` | lib/rate-limit.ts:17-37 | one call deletes exactly the other windows that ended before `now`, leaves the other survivors unchanged, and adds one request to the open window or to a fresh one ending at `now + 60000` |
| `RateLimit.ReportMeaning` | lib/rate-limit.ts:40-47 | `success` exactly when the count is at most 10; `remaining` is `max(0, 10 - count)` within 0..10; `limit` is 10; `reset` is the window's end in seconds, rounded up |
| `RateLimit.OpenWindowCounts` | lib/rate-limit.ts:25-40 | while a window stays open, the i-th later call succeeds exactly when the count reaches at most 10 |
| `RateLimit.WindowAdmitsTen` | lib/rate-limit.ts:9-40 | calls within 60 seconds of a call that opens a window: exactly the first 10 succeed |
| `MockAi.LastUserIndex` | lib/ai.ts:46 | the index of the last `user` message, and `None` exactly when there is none |
| `MockAi.GenerateChatCompletion` | lib/ai.ts:36-80 | it fails with "No user message found" exactly when no message is from the user; otherwise one assistant choice quotes the last user message, finished with `stop`, with the usage of all messages and the reply |
| `MockAi.CompletionReply` | lib/ai.ts:53 | the reply quotes the last user message right after `I received your message: "` |
| `MockAi.StreamingReply` | lib/ai.ts:96 | the streamed reply quotes it the same way |
| `MockAi.TokenUsage` | lib/ai.ts:56-78 | the prompt count is a quarter of all message characters, rounded up, the completion count a quarter of the reply's, and the total a quarter of both together, rounded up once; so none is negative, and the total is at least each part, at most their sum, and at least their sum less one |
| `MockAi.SpacedJoin` | lib/ai.ts:131-146 | the words, each followed by a space, are the words joined by spaces plus one space |
| `MockAi.StreamPrefixStep` | lib/ai.ts:133-157 | one more word chunk extends the stream written so far by that word and a space |
| `MockAi.FinishStream` | lib/ai.ts:159-179 | the stop chunk and `[DONE]` end the stream without adding content |
| `MockAi.StreamWords` | lib/ai.ts:102-183 | the stream is a role chunk, one chunk per word, a stop chunk and `[DONE]`, `words + 3` frames, and its content is each word followed by a space |
| `MockAi.GenerateChatCompletionStream` | lib/ai.ts:85-185 | it fails exactly when no message is from the user; otherwise the frames are those over the reply's `split(" ")`, and the content read together is the reply plus one space |
| `LineBuffer.ConcatAppend` | app/v1/chat/completions/route.ts:228 | appending a decoded chunk to the buffer appends it to all the text read so far |
| `LineBuffer.Concat` | app/v1/chat/completions/route.ts:228 | the buffer's text is at least as long as any chunk read |
| `LineBuffer.ChunkInConcat` | app/v1/chat/completions/route.ts:228 | the buffer's text holds every chunk read, right after the chunks before it |
| `LineBuffer.ConcatPrefix` | app/v1/chat/completions/route.ts:228 | what was read at any earlier moment is a prefix of what is read later |
| `LineBuffer.CompleteLines` | app/v1/chat/completions/route.ts:231-235 | no complete line holds a `\n`, and there are no more lines than characters |
| `LineBuffer.LineEnd` | app/v1/chat/completions/route.ts:232 | the index of the first `\n`, or `None` when there is none |
| `LineBuffer.LineEndIsIndexOf` | app/v1/chat/completions/route.ts:232 | that index is `buffer.indexOf("\n")` |
| `LineBuffer.Remainder` | app/v1/chat/completions/route.ts:232-234 | what is left once every complete line is taken has no `\n` |
| `LineBuffer.LinesAreSplit` | app/v1/chat/completions/route.ts:231-235 | the complete lines and the remainder are exactly the pieces of `split("\n")` |
| `LineBuffer.LinesLoseNothing` | app/v1/chat/completions/route.ts:231-235 | the lines joined with `\n`, and then the remainder, give the text back |
| `LineBuffer.TakeLine` | app/v1/chat/completions/route.ts:233-234 | taking the first line off the buffer does not depend on what is appended behind it |
| `LineBuffer.AppendChunk` | app/v1/chat/completions/route.ts:228-234 | after a chunk arrives, the lines already complete stay as they were, and the new ones are those of the carried remainder plus the chunk; so the lines do not depend on where the chunks split the text |
| `LineBuffer.AppendChunkLines` | app/v1/chat/completions/route.ts:228-234 | the line half of `AppendChunk` |
| `LineBuffer.AppendChunkRemainder` | app/v1/chat/completions/route.ts:228-234 | the remainder half of `AppendChunk` |
| `LineBuffer.NoBreakNoLines` | app/v1/chat/completions/route.ts:232 | text without `\n` adds no line and is carried whole |
| `LineBuffer.UnterminatedTailIgnored` | app/v1/chat/completions/route.ts:220-234 | a final fragment without `\n` is never handled as a line |
| `GrokStream.SenderToRole` | app/v1/chat/completions/route.ts:13-16 | `SENDER_TO_ROLE[sender] \|\| "assistant"` is `user` exactly for sender `1`, and `assistant` otherwise |
| `GrokStream.ConvertTweetLinks` | app/v1/chat/completions/route.ts:24-29 | the pattern can match nothing, so the message comes back unchanged |
| `GrokStream.ResultKind` | app/v1/chat/completions/route.ts:241-294 | a result with a sender is a fragment with the table's role and the message, wrapped in thinking markers when thinking; without a sender it is a soft stop exactly when it says so |
| `GrokStream.Classify` | app/v1/chat/completions/route.ts:233-297 | a line is handled only when it is not blank after `trim`, parses, and has a result, and then as `ResultKind` says; every other line is skipped |
| `GrokStream.Advance` | app/v1/chat/completions/route.ts:252-294 | a line adds at most one frame and one history entry behind the ones already there, and sets `stopSignalSent` exactly for a soft stop |
| `GrokStream.ProcessLine` | app/v1/chat/completions/route.ts:233-297 | one complete line adds at most one frame and one history entry, and changes nothing already written |
| `GrokStream.ProcessLines` | app/v1/chat/completions/route.ts:231-298 | the lines only append, at most one frame each, and `stopSignalSent` is never reset |
| `GrokStream.CreatedTime` | app/v1/chat/completions/route.ts:208 | `created` is the whole seconds of the `date` header, or of the clock without one |
| `GrokStream.Context` | app/v1/chat/completions/route.ts:206-213 | every chunk carries the request's model, and a `chatcmpl-` id of 41 characters |
| `GrokStream.Finished` | app/v1/chat/completions/route.ts:301-322 | finishing keeps every frame and adds the fallback stop only when none was sent, then `[DONE]` last |
| `GrokStream.Translate` | app/v1/chat/completions/route.ts:181-328 | a run throws nothing exactly when `fetch` answered ok with a body that read to its end, and then its last frame is `[DONE]` |
| `GrokStream.GrokIdText` | app/v1/chat/completions/route.ts:211 | the id text is the `userChatItemId` header, or the clock's text when that is absent or empty; it is never empty |
| `GrokStream.ProcessLineKeeps` | app/v1/chat/completions/route.ts:236-294 | one line adds at most one frame, keeps every invariant, and adds one stop chunk exactly for a soft stop |
| `GrokStream.FrameKeeps` | app/v1/chat/completions/route.ts:252-293 | a chunk of the response with the history entry it stands for keeps the invariants |
| `GrokStream.ProcessLinesKeeps` | app/v1/chat/completions/route.ts:220-299 | over any lines the chunks carry one id, time and model, the history pushed is the assistant chunks' content, there is no `[DONE]`, and there is one stop chunk per soft stop |
| `GrokStream.ProcessLinesAppend` | app/v1/chat/completions/route.ts:220-299 | the lines of a body can be handled in any grouping |
| `GrokStream.FragmentLine` | app/v1/chat/completions/route.ts:241-275 | a sender line gives one content chunk with the table's role and the message, wrapped in thinking markers exactly when thinking, and is pushed exactly when its role is `assistant` |
| `GrokStream.SoftStopLine` | app/v1/chat/completions/route.ts:276-294 | a soft stop without a sender gives one empty-delta stop chunk and sets `stopSignalSent` |
| `GrokStream.SkippedLine` | app/v1/chat/completions/route.ts:236-297 | a blank line, a line that does not parse, an event without a result, and a result with neither a sender nor a soft stop change nothing |
| `GrokStream.FinishedShape` | app/v1/chat/completions/route.ts:301-322 | finishing adds the fallback stop only when none was sent, so there is at least one, and ends with the only `[DONE]` |
| `GrokStream.TranslateSucceeds` | app/v1/chat/completions/route.ts:181-328 | a run that reads the whole body ends with the only `[DONE]`, has one stop chunk per soft stop but at least one, tags every chunk alike, and pushes exactly the assistant chunks' content |
| `GrokStream.TranslateFails` | app/v1/chat/completions/route.ts:190-327 | the error order is `fetch`, status, missing body, read error; a failed run keeps only the chunks of the lines already read and never writes `[DONE]` |
| `GrokStream.ContextId` | app/v1/chat/completions/route.ts:207-213 | the response id is a 41-character `chatcmpl-` id of the item id or of the clock, and `created` is the date's whole seconds |
| `Completions.RoleToSender` | app/v1/chat/completions/route.ts:134-140 | `ROLE_TO_SENDER[role] \|\| 1` is 2 exactly for `assistant`, and 1 for every other role |
| `Completions.LibSenderToRole` | lib/grok-utils.ts:8-12 | the library's table knows exactly the keys `1`, `2` and `ASSISTANT` |
| `Completions.SenderTablesAgree` | app/v1/chat/completions/route.ts:13-16 | with the `\|\| "assistant"` default both tables agree, and only sender `1` is `user` |
| `Completions.RequestBodyFor` | app/v1/chat/completions/route.ts:117-140 | `responses` is the whole history in order with each sender; the model option is `grok-3`; `isReasoning` exactly for `grok-3t`, `isDeepsearch` exactly for `grok-3ds` |
| `Completions.ParseAuthorization` | app/v1/chat/completions/route.ts:72-82 | the header fails to parse exactly when it has no `Bearer ` |
| `Completions.ConversationIdFor` | app/v1/chat/completions/route.ts:95 | the conversation id is the request's `conversation_id` when that is not empty, and otherwise the clock's decimal text; it is never empty |
| `Completions.Validate` | app/v1/chat/completions/route.ts:57-92 | an admitted request is a JSON body with a non-empty `messages` list and a header that parses to its credentials; every rejection is one of the five errors |
| `Completions.HeadersFor` | app/v1/chat/completions/route.ts:109-114 | the upstream `authorization` header is `Bearer ` and the bearer, and the cookie is `auth_token=` and the token, or `undefined` without one |
| `Completions.Pushed` | app/v1/chat/completions/route.ts:270-275 | pushing to the history appends to the conversation when it exists, and changes no other conversation and no key |
| `Completions.ValidationOrder` | app/v1/chat/completions/route.ts:57-92 | each of the five errors arises exactly when its check fails and every earlier one passed, and the request is admitted exactly when all pass |
| `Completions.BearerWithToken` | app/v1/chat/completions/route.ts:74-76 | `Bearer b,t` gives the bearer `b` and the token `t` |
| `Completions.BearerWithoutToken` | app/v1/chat/completions/route.ts:74-76 | `Bearer b` without a comma is accepted with an `undefined` token |
| `Completions.AfterBearer` | app/v1/chat/completions/route.ts:74 | splitting `Bearer rest` at `Bearer ` gives `""` and `rest` |
| `Completions.CommaSplit` | app/v1/chat/completions/route.ts:74 | splitting `b,t` at the comma gives `b` and `t` |
| `Completions.Writer.constructor` | app/v1/chat/completions/route.ts:143-145 | a fresh writer is open and empty |
| `Completions.Writer.Write` | app/v1/chat/completions/route.ts:267 | a write appends one frame to an open writer |
| `Completions.Writer.Close` | app/v1/chat/completions/route.ts:326 | closing an open writer keeps its frames; a closed writer cannot be written or closed again |
| `Completions.Route.constructor` | app/v1/chat/completions/route.ts:10 | the store starts with no conversations |
| `Completions.Route.Post` | app/v1/chat/completions/route.ts:52-148 | a rejected request changes nothing and gets `Validate`'s error; an admitted one appends its messages to the conversation, started empty when new, and replays the whole history to Grok |
| `Completions.Route.HandleLine` | app/v1/chat/completions/route.ts:233-297 | one line writes the frames, pushes the history and sets `stopSignalSent` as `Classify` says |
| `Completions.Route.HandleResult` | app/v1/chat/completions/route.ts:241-294 | a parsed result writes, pushes and signals as `ResultKind` says |
| `Completions.Route.WriteFragment` | app/v1/chat/completions/route.ts:252-275 | a fragment writes its content chunk, and pushes an assistant fragment to the conversation when it exists |
| `Completions.Route.DrainLines` | app/v1/chat/completions/route.ts:231-298 | the inner loop handles every complete line of the buffer in order and leaves the remainder |
| `Completions.Route.StreamBody` | app/v1/chat/completions/route.ts:216-322 | the read loop handles exactly the complete lines of all the chunks, then writes the fallback stop and `[DONE]` unless reading failed |
| `Completions.Route.ProcessGrokResponse` | app/v1/chat/completions/route.ts:181-328 | the frames written, the history pushed and the error rethrown are those of `Translate`, and the writer ends closed |
| `Completions.Route.Serve` | app/v1/chat/completions/route.ts:52-179 | a rejected request opens no stream; an admitted one ends with the history plus the assistant fragments, and a closed stream carrying the frames of the translation for `grok-3` |
| `Completions.MirrorStep` | app/v1/chat/completions/route.ts:267-275 | one handled line keeps the writer, the store and `stopSignalSent` in step with the progress |
| `Completions.DrainStep` | app/v1/chat/completions/route.ts:232-234 | handling the first complete line leaves the lines after it and the same remainder |
| `Completions.ChunkStep` | app/v1/chat/completions/route.ts:220-234 | reading a chunk handles the lines completed so far, then those of the carried remainder plus the chunk |

## Left out

- Network, `TextDecoder`, `TextEncoder` and the `TransformStream`: the upstream is a `Body` of already-decoded chunks and a possible read error, and the writer is a sequence of frames with a closed flag.
- The error frame written in the `catch` of `POST` at route.ts:148-161: it runs after the `finally` of `processGrokResponse` has closed the writer. The model states only that the writer is closed once and the error is rethrown.
- `OPTIONS`, the catch-all 500 answer of `POST`, the response headers of the event stream, and the fixed request headers `content-type` and `accept-encoding`.
- SHA-256: a function parameter giving 32 bytes.
- `Strings.DecimalString`: exact decimal digits for every integer. JavaScript's `String(n)` prints only the shortest round-trip digits above 2^53 and switches to exponent notation from 10^21. The same goes for the text of a numeric id in `ChatId.EncodeNumberAsText`. The route formats only clock readings and HTTP statuses, which stay far below those bounds.
- The leniency of Node's base 64 decoder: the model decodes strictly, drops trailing `=`, and fails on any other character outside the alphabet. Node also reads the URL-safe `-` and `_` as 62 and 63, and passes over characters it does not recognise instead of failing.
- `Base64.NonAlphabetFails`: a property of the strict decoder. Where Node skips or URL-decodes the character, the source gives a number.
- `ChatId.DoublePrefixFails`: with Node's decoder the `-` of the second prefix reads as 62, so the source decodes such an id to a number where the model gives `None`.
- `ChatId.HyphenFails`: holds only of the strict decoder. Node reads `-` as 62 and returns a number.
- `ChatId.DecodeEncodeChatId`: `RoundTrips` is the condition for the strict decoder. How Node treats a `z` turned `=` inside the text is not modelled.
- `JSON.parse` and `JSON.stringify`: a line's parse is a parameter, and frames are records, not text.
- `convertTweetLinks`: its pattern puts an end-of-input anchor before a literal `#`, so it can match nothing and the model treats it as the identity. No regular expression engine is modelled.
- `Date.now()`, the parsing of the `date` header, `setTimeout` and `AbortController`: times are parameters, an abort is the `TimedOut` outcome, and waits are recorded, not taken. A `date` header that parses to `NaN` is not modelled.
- The three `Date.now()` readings of one request (route.ts:95, 208 and 211) are one instant `nowMs` in `Serve`. So when both fall back to the clock, the conversation id and the item-id text are the same string.
- Concurrency: interleaved requests on the shared conversation map are not modelled.
- `writer.write` rejecting: writes are assumed to succeed.
- The exported `conversations` of lib/grok-utils.ts, which nothing uses.
- The role table of lib/grok-utils.ts. It is used only to compare it with the route's (`SenderTablesAgree`).
- Property keys inherited from `Object.prototype`. The model reads `ROLE_TO_SENDER`, `SENDER_TO_ROLE` and the `conversations` map with own keys only. With a `conversation_id` such as `constructor` or `__proto__`, the check at route.ts:98 sees an inherited value and the spread at route.ts:106 throws, so the source answers 500; the model starts a fresh history instead.
- Message values that are not strings, and a `messages` value that is truthy but not an array.
- Lengths are counted in characters, not in UTF-16 code units.
- A `backoffFactor` that is not an integer: back-off times are integer powers.
- The random suffix and the clock-based text of the mock generator's id: the id is a parameter.
- `fileAttachments`: always empty, so it is left out of `GrokTurn`.
- The UI pages, middleware.ts, app/v1/models/route.ts and `cn`.
