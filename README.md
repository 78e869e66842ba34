# HTTP streaming demo: producer and consumer

This is a model of a small Next.js demo of HTTP streaming. It has two sides.

- **The producer** is the route `GET /api/stream?count=<n>`. It reads `count` and falls back to `"12"` when the parameter is missing or empty. It parses the value with `parseInt(…, 10)`. It then enqueues `n` random lower-case words as separate chunks, each ending in `"\n"`. After the words it enqueues the terminator line `"[DONE]\n"` and closes the body.
- **The consumer** is the page's "Start Stream" click handler.
  - It ignores clicks while a session is active.
  - Otherwise it clears the shown text and the trace, then checks the typed count.
  - A NaN or non-positive count is rejected before any request is made.
  - For a positive count it requests the stream. A non-OK status stops it there.
  - On an OK status it reads the body chunk by chunk. Each chunk's text is appended to the display, and a `chunk` event quoting the trimmed text goes into the trace.
  - The loop stops at the first chunk whose text contains `"[DONE]"`, recording `complete` and dropping that chunk, or at the end of the stream.
  - Either way it then appends `"\nStream finished."`.

The model has five modules:

- `Wrappers`: the `Option` type. `None` stands for NaN.
- `JsText`: the JavaScript primitives both sides use:
  - white space, `trim` and `includes`;
  - a simplified `parseInt(s, 10)`, which skips leading white space, takes an optional sign and the longest run of digits, and gives `None` when there are no digits;
  - the decimal form of an integer in a template literal;
  - the concatenation of a list of chunks.
- `StreamRoute`: the producer.
  - `GenerateRandomWord` and `Get` are methods with loops, proved against the specification functions `Spelled`, `Words`, `Lines` and `Framed`.
  - `Math.random()` is replaced by integer oracles: `lengthDraw(i)` in [0, 8) for word `i`, and `letterDraw(i, j)` in [0, 26) for character `j` of word `i`.
- `StreamPage`: the consumer, as a class `Session` whose fields `text`, `trace` and `active` stand for the three pieces of React state.
  - `Start`, the request step `Fetch` and the read loop `ReadStream` are proved against the functions `Click` and `Answered`. These give the session state after one click from the state before it. `Answered` is stated for the query text the page sends, `${count}`, which for a positive count is its decimal form.
  - A response is written as its status plus the list of decoded chunk texts that successive reads return.
- `Protocol`: the two sides together, for the case where every enqueued chunk arrives as its own read.

The consumer is modelled as the code is written:

- Each read is decoded and checked for `"[DONE]"` on its own (app/page.tsx:107-108). A terminator split across two reads is therefore shown as text and never recognised (`SplitSentinelIsMissed`).
- A read that carries a word line together with the terminator is dropped whole (`MergedChunkIsDropped`).
- When every chunk arrives as its own read, the final text is each word followed by its own `"\n"`, then `"\nStream finished."`. There is thus an empty line before the closing line, not words merely joined by `"\n"`.

## Model

| member | source | states |
|---|---|---|
| StreamPage.Session.constructor | app/page.tsx:13-15 | a new session shows no text, has an empty trace and is not streaming |
| StreamPage.Session.AddTraceEvent | app/page.tsx:32-38 | the trace grows by exactly one event at its end; text and streaming flag are untouched |
| StreamPage.Session.Start | app/page.tsx:66-119 | the session after a click is `Click` of the session before it, for every input, status and list of reads |
| StreamPage.Session.Fetch | app/page.tsx:83-118 | on a freshly reset session, recording the request, checking the status, reading the stream and adding the closing line ends in exactly `Answered` for that query, status and list of reads |
| StreamPage.Session.ReadStream | app/page.tsx:103-115 | the loop appends exactly the chunks before the first sentinel-bearing one to the text, records one `chunk` event each and then `complete` only if a sentinel stopped it |
| StreamPage.StreamRanOut | app/page.tsx:104-105 | a loop that reaches the end of the stream before any sentinel has shown every chunk and owes no `complete` event |
| StreamPage.SentinelReached | app/page.tsx:107-111 | a loop that meets the first sentinel-bearing chunk has shown exactly the chunks before it, and its only further event is `complete` |
| StreamPage.NoSentinelYet | app/page.tsx:107-114 | a chunk without the sentinel, read before the stopping point, leaves the stopping point still ahead |
| StreamPage.FirstDone | app/page.tsx:103-111 | the position where the loop stops: no chunk before it contains `[DONE]`, and the chunk at it does unless the stream ran out |
| StreamPage.ChunkEventsAt | app/page.tsx:113-114 | the `k`-th chunk event reports the trimmed text of the `k`-th shown chunk |
| StreamPage.KindsAt | app/page.tsx:7 | the kind list of a trace lists the kind of each event in order |
| StreamPage.KindsAppend | app/page.tsx:32-38 | appending events to a trace appends their kinds to its kind list |
| StreamPage.Answered | app/page.tsx:83-118 | once a request for `?count=<query>` is answered the session is over, the trace opens with `GET /api/stream?count=<query>`, and its second event is `response` exactly when the status is in the 2xx range of `response.ok` (an `error` otherwise, as `ServerErrorReadsNothing` states) |
| StreamPage.Click | app/page.tsx:66-119 | a click on an idle page always ends with the flag cleared and at least one trace event |
| StreamPage.ActiveClickIsNoOp | app/page.tsx:67 | a click while streaming leaves text, trace and flag as they were |
| StreamPage.ClickForgetsEarlierSession | app/page.tsx:69-72 | any two idle sessions end identical after the same click, so nothing of an earlier session remains, and the flag ends false |
| StreamPage.InvalidInputMakesNoRequest | app/page.tsx:75-81 | a NaN or non-positive count gives exactly the rejected state: the text "Please enter a valid positive number.", a trace of exactly one `error` event and the flag false |
| StreamPage.RejectedInputs | app/page.tsx:75-81 | `""` and `"abc"` parse to NaN, `"0"` and `"-5"` to 0 and -5, and typing any of them ends in the rejected state |
| StreamPage.ValidInputIsRequested | app/page.tsx:75-87 | a positive parsed count on an idle page leads to the request whose query is the count's decimal form, and to its answer |
| StreamPage.ServerErrorReadsNothing | app/page.tsx:89-94 | a non-OK status gives the kinds `[request, error]` and the text "Server error: " followed by the status, and the answer does not depend on the reads at all |
| StreamPage.ChunkEventKinds | app/page.tsx:113-114 | the chunk events are all of kind `chunk`, one per shown chunk |
| StreamPage.AnsweredText | app/page.tsx:113-118 | after an OK response the text is the shown chunks concatenated, then "\nStream finished." |
| StreamPage.AnsweredKinds | app/page.tsx:84-115 | after an OK response the kinds are `request`, `response`, one `chunk` per shown chunk, then `complete` exactly when a sentinel stopped the loop |
| StreamPage.AnsweredChunkEvent | app/page.tsx:107-114 | trace event `2 + k` of an OK answer quotes the trimmed `k`-th chunk, for every chunk the loop showed |
| StreamPage.FirstDoneAt | app/page.tsx:103-111 | after sentinel-free chunks and then a sentinel-bearing one, the loop stops at the latter, whatever follows |
| StreamPage.FirstDoneNone | app/page.tsx:103-105 | without any sentinel the loop runs over every chunk |
| StreamPage.StreamStopsAtSentinel | app/page.tsx:107-111 | the sentinel-bearing chunk is never shown, the kinds end in one `complete`, and no chunk after it has any effect |
| StreamPage.ShownAtSentinel | app/page.tsx:107-111 | the shown chunks are exactly those before the first sentinel-bearing chunk, and the loop counts as terminated |
| StreamPage.SameShownSameAnswer | app/page.tsx:103-118 | two streams with the same shown chunks and the same way of ending give the same final state |
| StreamPage.StreamEndsWithoutSentinel | app/page.tsx:103-118 | a stream without a sentinel shows every chunk, still adds "\nStream finished.", and records no `complete` |
| StreamPage.CompleteIffSentinel | app/page.tsx:108-110 | `complete` appears in the trace of an OK answer if and only if some chunk contains `[DONE]` |
| StreamPage.AnsweredTraceWellOrdered | app/page.tsx:84-115 | every answered trace starts with `request` and has at least two events; it is `request, error`, or `request, response`, then chunks, with at most one `complete` and only last |
| StreamPage.ClickTraceWellOrdered | app/page.tsx:66-119 | every trace a click on an idle page leaves is well ordered in that sense, or is the single `error` of a rejected input |
| StreamPage.SplitSentinelIsMissed | app/page.tsx:107-108 | reads `"[DO"`, `"NE]\n"` are both shown as text and no `complete` is recorded |
| StreamPage.MergedChunkIsDropped | app/page.tsx:107-111 | a single read `"word\n[DONE]\n"` shows nothing and records `complete` straight after `response` |
| StreamPage.ShownSnoc | app/page.tsx:113-114 | one more loop step appends the chunk's text and exactly one chunk event |
| StreamRoute.Letter | app/api/stream/route.ts:31 | `String.fromCharCode(97 + d)` for a draw below 26 is a letter from `a` to `z` |
| StreamRoute.Spelled | app/api/stream/route.ts:29-32 | the word spelled by `n` draws has length `n` and its `k`-th letter comes from draw `k` |
| StreamRoute.GenerateRandomWord | app/api/stream/route.ts:27-34 | the generated word is the one its draws spell, has 3 to 10 characters, and all of them are lower-case letters |
| StreamRoute.CountParameter | app/api/stream/route.ts:5 | the count text is "12" exactly when the parameter is missing or empty, and otherwise the parameter itself |
| StreamRoute.WordCount | app/api/stream/route.ts:5-9 | the loop runs a positive number `n` of times only when `parseInt` of the count text is exactly `n`, and not at all exactly when that text parses to NaN or to a non-positive number |
| StreamRoute.LoopBound | app/api/stream/route.ts:9 | `i < count` holds for a positive number `n` of iterations only when the count is `n`, and for none exactly when the count is NaN or non-positive |
| StreamRoute.Words | app/api/stream/route.ts:9-10 | `n` loop iterations generate exactly `n` words |
| StreamRoute.Lines | app/api/stream/route.ts:10-11 | the loop enqueues one line per word |
| StreamRoute.LinesAt | app/api/stream/route.ts:10-11 | chunk `k` enqueued by the loop is word `k` followed by a newline |
| StreamRoute.LinesSnoc | app/api/stream/route.ts:10-11 | one more iteration adds one line at the end |
| StreamRoute.Framed | app/api/stream/route.ts:9-15 | a body has one chunk more than there are words, and that last chunk is the terminator line |
| StreamRoute.Get | app/api/stream/route.ts:3-17 | the enqueued chunks are one line per word for `max(count, 0)` words, or none for NaN, followed by `[DONE]\n` |
| StreamRoute.DefaultIsTwelve | app/api/stream/route.ts:5 | a missing or empty `count` gives twelve words |
| StreamRoute.WordCountOfDecimal | app/api/stream/route.ts:5-9 | a count sent as the decimal text of `c` gives `max(c, 0)` words |
| StreamRoute.WordsAreLowercase | app/api/stream/route.ts:28-31 | every generated word has 3 to 10 characters, all from `a` to `z` |
| StreamRoute.WordLineIsNotTerminator | app/api/stream/route.ts:10-14 | no word line equals the terminator line |
| StreamRoute.TerminatorOnlyLast | app/api/stream/route.ts:9-15 | the body holds one line per word in order, and the terminator line once, as its last chunk |
| StreamRoute.BodyOfFramed | app/api/stream/route.ts:9-15 | the wire body is the concatenated word lines followed by `[DONE]\n` |
| StreamRoute.NonPositiveCountBody | app/api/stream/route.ts:5-14 | a NaN or non-positive count gives the body `[DONE]\n` and nothing else |
| JsText.TrimStartRemovesLeadingWhitespace | app/page.tsx:114 | removing leading white space leaves a suffix whose first character is not white space, and everything removed is white space |
| JsText.TrimEndRemovesTrailingWhitespace | app/page.tsx:114 | removing trailing white space leaves a prefix whose last character is not white space, and everything removed is white space |
| JsText.TrimBothEnds | app/page.tsx:114 | `trim` leaves no white space at either end and leaves a string without such white space unchanged |
| JsText.TrimIdempotent | app/page.tsx:114 | trimming an already trimmed text changes nothing |
| JsText.Contains | app/page.tsx:108 | only a string at least as long as `part` includes it, and every string includes the empty string |
| JsText.FirstCharAbsent | app/page.tsx:108 | a string that never holds the first character of `part` does not include `part` |
| JsText.TooShort | app/page.tsx:108 | a string shorter than `part` does not include it |
| JsText.ParseInt | app/page.tsx:75 | an empty or all-white-space input reads as NaN, and a negative result comes only from input whose first non-blank character is `-` |
| JsText.ParseDigits | app/page.tsx:75 | a number is read exactly when the text starts with a digit, and it is never negative |
| JsText.DigitValue | app/page.tsx:75 | a character's digit value is below ten |
| JsText.DigitChar | app/page.tsx:84 | the digit character for a value below ten is a digit with that value |
| JsText.DigitRun | app/page.tsx:75 | the digit run at the front of a string is no longer than the string |
| JsText.DigitRunOfDigits | app/page.tsx:75 | on digits followed by a non-digit, the digit run is exactly those digits |
| JsText.DigitRunIsLongest | app/page.tsx:75 | the digit run consists of digits and stops at a non-digit or at the end |
| JsText.ParseDigitsOfDigits | app/page.tsx:75 | digits followed by a non-digit parse to their value |
| JsText.NatToString | app/page.tsx:84 | the decimal form of a natural number is non-empty, all digits, has that value, has no leading zero when the number is positive, and is one digit below ten |
| JsText.IntToString | app/page.tsx:84 | the decimal form of an integer is non-empty and starts with `-` exactly for negative values; for a non-negative value it is the digits of that value without a leading zero (a single digit below ten), and for a negative one the `-` is followed by the digits of its magnitude, without a leading zero |
| JsText.ParseIntOfIntToString | app/api/stream/route.ts:5 | `parseInt` reads back any integer from its decimal form, whatever non-digit text follows it |
| JsText.NatRoundTrip | app/api/stream/route.ts:5 | the same round trip for a natural number |
| JsText.NegativeRoundTrip | app/api/stream/route.ts:5 | the same round trip for a negative number |
| JsText.NoLeadingWhitespace | app/page.tsx:75 | a string starting with a minus sign or a digit is left alone by the white-space skip |
| JsText.NegativeParses | app/page.tsx:75 | a minus sign followed by digits parses to the negated value |
| JsText.ParseIntSkipsWhitespace | app/page.tsx:75 | leading white space does not change what `parseInt` returns |
| JsText.TrimStartSkips | app/page.tsx:75 | skipping white space in front of a string gives the same as skipping it in the string alone |
| JsText.ConcatSnoc | app/page.tsx:113 | appending one more chunk appends its text to the concatenation |
| JsText.ConcatAppend | app/page.tsx:113 | the concatenation of two lists of chunks is the concatenation of their texts |
| Protocol.OnlyTerminatorHoldsSentinel | app/api/stream/route.ts:10-14 | no lower-case word line contains `[DONE]`, and the terminator line does |
| Protocol.LoopStopsAtTerminatorLine | app/page.tsx:107-111 | on a framed body the consumer shows every word line and stops at the terminator line |
| Protocol.WordLineMessage | app/page.tsx:114 | the trace message of a word line quotes the word without its newline |
| Protocol.FramedBodyAnswer | app/page.tsx:103-118 | when every chunk of a framed body is its own read, the text is the word lines followed by "\nStream finished.", and the trace is `request`, `response`, one `chunk` per word and then `complete` |
| Protocol.WordEventsQuoteWords | app/page.tsx:114 | the chunk event of word `k` in that trace is `Received: "<word k>"` |
| Protocol.WordsAreWordLines | app/api/stream/route.ts:28-31 | every generated word is non-empty and lower-case |
| Protocol.EndToEnd | app/page.tsx:84-87 | a positive typed count makes the route generate exactly that many words; the page ends showing their lines and the closing line, with one `chunk` event per word and then `complete` |
| Protocol.EmptyStream | app/api/stream/route.ts:9-15 | a count of 0 at the route gives the single chunk `[DONE]\n`, which the page answers with only the closing line and the kinds `request`, `response`, `complete` |

## Left out

- Rendering, JSX, styling, the auto-scroll effects and the timestamp formatting (app/page.tsx:20-30, 40-183) are interface only.
- `fetch`, `ReadableStream`, `reader.read()` and the stream controller stay abstract. A response is a status plus the list of chunk texts its reads return. A split of the wire body into reads other than one chunk per read is covered only by the two concrete cases `SplitSentinelIsMissed` and `MergedChunkIsDropped`.
- A rejected `fetch` or a failing `read()`: the handler has no `try`/`catch`, so such an exception would end it with the streaming flag still set. The network is not modelled, so neither is this path.
- The null `response.body` case (app/page.tsx:99), where `reader!` would throw, is not modelled.
- `TextEncoder`/`TextDecoder` byte handling is left out. Chunks are strings, and the generated content is ASCII.
- The 500 ms `setTimeout` pacing between words (app/api/stream/route.ts:12) is timing only.
- `Date.now()` timestamps (app/page.tsx:34) are left out. A trace event is its kind and message.
- `Math.random()` is replaced by the integer oracles `lengthDraw` and `letterDraw` in the ranges the code's `Math.floor` calls produce.
- The response headers and the `runtime` export (app/api/stream/route.ts:2, 18-25) are recorded as constants only. They configure the framework and have no behaviour here.
- React's batched, asynchronous state updates are modelled as in-order updates of the session's fields. So is a second click that arrives before the flag is re-rendered; the guard is modelled as seeing the current flag.
- JsText.ParseInt: integers are unbounded, so the model does not capture JavaScript numbers. A digit string too long for a double makes `parseInt` return `Infinity`. The page then sends `count=Infinity`, which the route reads as NaN, so it sends no words. Counts of 10^21 and more print in exponent form, so `1e+21` reaches the route, which reads it as 1. Past 2^53 `parseInt` loses precision, and the route's `i++` stops growing, so its loop never ends. `EndToEnd` does not hold in these cases. The model also reads `"-0"` as 0, where JavaScript reads minus zero; both are rejected the same way.
- JsText.Trim, JsText.Concat, StreamPage.IsOk and StreamPage.ChunkMessage only compute, so they carry no contract of their own. What they promise is stated by `TrimBothEnds` and `TrimIdempotent`, by `ConcatSnoc` and `ConcatAppend`, by `Answered` and `ServerErrorReadsNothing`, and by `ChunkEventsAt` and `WordLineMessage`.
