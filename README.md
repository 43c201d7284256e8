# Streaming proxy response reader

A model of `Rack::StreamingProxy::Response`, the supervisor side of one proxied
request. A forked worker performs the upstream HTTP request and writes, one
value at a time onto a pipe: the status, whether a body is permitted, the
response headers, the body chunks, and the `:done` symbol. The response object
reads those values back (`read_from_remote`), raises `ConnectionError` or
`HttpServerError` when the status says so, and otherwise hands the body to Rack
chunk by chunk (`each`). In chunked mode it re-frames every chunk with its size
and ends the body with a zero-size frame. The worker is waited on (`finish`) so
that it does not linger as a zombie process.

The project has four modules:

- `RubyText` (`ruby_text.dfy`) holds the pieces of Ruby it relies on:
  - bytes;
  - `Integer#to_s` in base 10 and base 16;
  - a yes/no reading of `=~ /^5..$/` with Ruby's line anchors;
  - a hexadecimal reader used to state the framing round trip.
- `Messages` (`messages.dfy`) holds the values on the pipe:
  - `Msg`;
  - Ruby truthiness;
  - the pipe as a sequence (a read past its end gives nil);
  - `to_s`;
  - the case-insensitive, last-field-wins lookup of a `HeaderHash`;
  - the index of the read that ends the body loop.
- `ChunkFraming` (`chunk_framing.dfy`) holds the frame layout `each` writes,
  and a reader for it with the round-trip lemma.
- `StreamingResponse` (`streaming_response.dfy`) holds the class `Response`:
  - Its fields are the pipe, the number of waits, `@status`,
    `@body_permitted`, `@headers` and everything yielded so far.
  - Its methods are `receive`, `each`, `finish` and `read_from_remote`.
  - `BodyLoop`/`EachSpec` is a pure reference definition of what `each` does,
    and the loop of `each` is proved against it.
  - The properties of that definition are stated as lemmas.
  - `Serve` drives `receive` and `each` the way the proxy and Rack do.

The block Rack passes to `each` is a `Consumer`. It either takes every value
(`Drain`) or breaks out of `each` when it is handed value number `n`
(`BreakOn(n)`).

Several things the code does are easy to miss. The model follows the code each
time, and the lemmas state what it does:

- The line terminator of a frame is the single-quoted Ruby literal `'\r\n'`.
  That is the four bytes backslash, `r`, backslash, `n`, not CR LF
  (`ChunkFraming.Term`).
- When the block breaks out of `each` before the loop ends, the worker is not
  waited on, because there is no `ensure` (`AbandonInLoop`). It is also not
  waited on when a value of the wrong type raises `NoMethodError`
  (`Receive`, `ChunkedBodyRaises`).
- In chunked mode, the terminating frame is yielded after the wait, not
  before it (`Conclude`, `BodyLoopWaits`).
- In non-chunked mode, empty strings are yielded as they are; only chunked
  mode skips them (`NonChunkedBody`).
- `HttpServerError` carries no status code (response.rb:22).
- The 5xx test is a regular expression applied to `@status.to_s`, not a range
  check. On an integer status it accepts exactly 500 to 599
  (`FiveXXStatus`).

## Model

| member | source | states |
|---|---|---|
| RubyText.DecimalIsCanonical | lib/rack/streaming_proxy/response.rb:19 | `Integer#to_s` of a non-negative number writes at least one digit, and only the digits `0`-`9` |
| RubyText.IntText | lib/rack/streaming_proxy/response.rb:19 | the text of an integer status is never empty, has no line feed, and starts with `-` exactly when the number is negative |
| RubyText.DecimalHasThreeDigits | lib/rack/streaming_proxy/response.rb:19 | the decimal text has three digits exactly when the number is from 100 to 999, and then its first digit is the hundreds digit |
| RubyText.FiveXXStatus | lib/rack/streaming_proxy/response.rb:19 | the test `@status.to_s =~ /^5..$/` holds for an integer status if and only if it is between 500 and 599 |
| RubyText.HexIsCanonical | lib/rack/streaming_proxy/response.rb:51 | `size.to_s(16)` writes at least one digit, only lower-case hexadecimal digits, and no leading zero for a positive size |
| RubyText.HexRoundTrip | lib/rack/streaming_proxy/response.rb:51 | reading back the digits `size.to_s(16)` wrote gives the size |
| Messages.ReadAfterDrop | lib/rack/streaming_proxy/response.rb:72-74 | the i-th read after k reads is read number k + i of the pipe, and what it leaves is the pipe after k + i reads |
| Messages.HeaderValue | lib/rack/streaming_proxy/response.rb:27 | the lookup finds nil exactly when no field name matches up to case; otherwise it finds the value of the last field whose name matches |
| Messages.HeaderLookupIgnoresCase | lib/rack/streaming_proxy/response.rb:43 | two spellings of a name that differ only in case look up the same header value |
| Messages.EndIndex | lib/rack/streaming_proxy/response.rb:46-47 | the loop ends at the first read that is falsy or `:done`, or at the nil read past the end of the pipe; nothing before it ends the loop |
| ChunkFraming.SizeField | lib/rack/streaming_proxy/response.rb:51 | the size field of a frame, followed by the terminator, is read back as exactly that size |
| ChunkFraming.DecodeOneFrame | lib/rack/streaming_proxy/response.rb:51 | a frame `[size.to_s(16), term, chunk, term].join` in front of more input is read back as its chunk, followed by whatever the rest reads as |
| ChunkFraming.DecodeLastFrame | lib/rack/streaming_proxy/response.rb:59 | the frame `['0', term, '', term].join` reads back as the end of the body |
| ChunkFraming.DecodeFramedBody | lib/rack/streaming_proxy/response.rb:44-59 | the frames of non-empty chunks, followed by the terminating frame, read back as exactly those chunks in order |
| StreamingResponse.BodyLoopYields | lib/rack/streaming_proxy/response.rb:46-54 | a turn that yields a value and goes on adds that value to what the run yields, and continues with the rest of the pipe |
| StreamingResponse.BodyLoopStops | lib/rack/streaming_proxy/response.rb:46-59 | a turn that leaves the loop waits once and then yields the terminating frame when chunked; a turn that raises ends the run without a wait |
| StreamingResponse.BodyLoopTakesChunk | lib/rack/streaming_proxy/response.rb:48-51 | in chunked mode an empty string is skipped, and any other string is yielded as its frame |
| StreamingResponse.PayloadsAreNonEmpty | lib/rack/streaming_proxy/response.rb:50 | the chunks that get framed are never empty |
| StreamingResponse.NonChunkedBody | lib/rack/streaming_proxy/response.rb:46-57 | non-chunked, with a block that takes everything: `each` yields exactly the reads before the first falsy value or `:done`, in order and including empty strings; it consumes the ending read and waits once |
| StreamingResponse.ChunkedBody | lib/rack/streaming_proxy/response.rb:43-59 | chunked, every read before the end a string, block takes everything: one frame per non-empty chunk in order, then the terminating frame, one wait |
| StreamingResponse.ChunkedBodyRaises | lib/rack/streaming_proxy/response.rb:48-49 | chunked, some read before the end not a string: `bytesize` raises `NoMethodError` and the worker is not waited on |
| StreamingResponse.ChunkedBodyDecodes | lib/rack/streaming_proxy/response.rb:43-59 | chunked: the bytes Rack writes for the yielded values decode to the non-empty chunks read, in order |
| StreamingResponse.BodyLoopWaits | lib/rack/streaming_proxy/response.rb:46-59 | `each` waits exactly once when it returns, never when it raises, and, when the block breaks out, at most once and only if it broke at the terminating frame |
| StreamingResponse.AbandonInLoop | lib/rack/streaming_proxy/response.rb:46-57 | a block that breaks inside the loop has received a prefix of what a draining block receives, and the worker is not waited on |
| StreamingResponse.AbandonAfterLoop | lib/rack/streaming_proxy/response.rb:55-59 | a block that breaks no earlier than the terminating frame sees the same values, reads and wait as one that takes everything |
| StreamingResponse.Response.constructor | lib/rack/streaming_proxy/response.rb:10-12 | a new response holds the pipe, has not waited, has yielded nothing, and has nil status, body-permitted answer and headers |
| StreamingResponse.Response.ReadFromRemote | lib/rack/streaming_proxy/response.rb:72-74 | a read returns the next value and removes it from the pipe, or returns nil on a drained pipe |
| StreamingResponse.Response.Finish | lib/rack/streaming_proxy/response.rb:67-70 | `finish` waits for the worker once |
| StreamingResponse.Response.Receive | lib/rack/streaming_proxy/response.rb:14-38 | on a falsy status it waits and raises `ConnectionError`; on a 5xx status with the flag set it waits and raises `HttpServerError`; otherwise it reads two more values and keeps them, waits only when no body is permitted, and raises `NoMethodError` without waiting when the third value is not a hash |
| StreamingResponse.Response.Each | lib/rack/streaming_proxy/response.rb:41-61 | the yielded values, the reads, the waits and the outcome are those of the reference run: nothing when no body is permitted, `NoMethodError` with nil headers, otherwise the body loop |
| StreamingResponse.Response.Stream | lib/rack/streaming_proxy/response.rb:43-59 | the loop of `each` and what follows it yield, read, wait and end exactly as the reference body loop does on the pipe it starts from |
| StreamingResponse.Response.Conclude | lib/rack/streaming_proxy/response.rb:57-59 | after the loop: one wait, then the terminating frame when chunked, at which the block may still break |
| StreamingResponse.Serve | lib/rack/streaming_proxy/response.rb:14-61 | one request through `receive` and `each`: error statuses wait once and yield nothing; a normal run that returns has waited exactly once; a `NoMethodError` run has not waited; a run the block broke out of has yielded something, and has waited only if the last thing it yielded was the terminating frame |

## Left out

- The proxy that forks the worker, performs the upstream request and retries
  on `HttpServerError` is not part of this model. Nor is the request object.
  `raiseOn5xx` is a parameter instead of the process-wide setting.
  `Proxy.raise_on_5xx` is not declared in proxy.rb, which declares only
  `logger` and `num_5xx_retries` (proxy.rb:10). The model assumes the
  accessor is defined elsewhere; without it, response.rb:19 would raise
  `NoMethodError` for every truthy status.
- Logging (`Proxy.log`) is left out; it does not change what is read,
  yielded or waited on.
- Processes, the pipe's blocking reads and the blocking `wait` are left out.
  The pipe is the sequence of values still to be read, and a wait is a
  counter.
- The values on the pipe arrive already decoded as Ruby objects; how the
  pipe serialises them is not modelled.
- `HeaderHash` is modelled only through its lookup. Its storage and its
  other methods are not part of this model.
- Messages.Downcase: folds ASCII letters only, while Ruby's `String#downcase`
  also folds other Unicode letters.
- Messages.Text: the `to_s` of a hash is abstracted to a text that opens with
  a brace and has no line feed, which is all the 5xx test depends on.
- An exception raised inside the block Rack passes to `each` is modelled
  only as a break out of `each`. What Rack does with the values it is handed
  is modelled as the concatenation of their texts.
- StreamingResponse.Serve: its contract states the wait and output
  properties of the run. It does not restate the full values of `Receive`
  and `Each`, which their own contracts give.
