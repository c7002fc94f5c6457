# Verified models of sylar

Dafny models of the hardest parts of the sylar C++ framework, and proofs about them. Each
model follows the code of one component: code that updates objects, buffers and local
variables is modelled by classes and loops proved against specification functions, protocols
between threads by step systems in which every critical section, counter update or callback
is one step, and pure code by functions.

| Modules | Component |
|---|---|
| `HttpTypes`, `UrlChars`, `HttpHop`, `HttpSpec`, `HttpChars` | the HTTP message parser as a machine that takes one byte at a time, the invariant of its reachable states, and its character classes |
| `HttpExecute`, `HttpParser`, `HttpSplit` | `http_parser_execute` as it runs, with marks, bulk loops and re-execution, proved to do what that machine does; input in pieces |
| `HttpCount`, `HttpFraming`, `HttpNames` | the header-size counter; chunk sizes, lengths and the ends of bodies; method and header-name recognisers |
| `HttpTokens`, `HttpLines`, `HttpMessage`, `HttpRefused` | lists of connection tokens; header lines and blocks; bodies, trailers, upgrades and whether the connection stays open; the header blocks that are refused |
| `HttpStart`, `HttpPipeline`, `HttpLineEnds`, `HttpExact` | request and status lines; whole messages, and several on one connection; bare line feeds, and parsers for either kind of message; what is refused |
| `UrlSplit`, `Uris`, `UriNormal`, `UrlForms` | the URL splitter, `Uri` and its normal form; authorities and paths on their own |
| `UrlText`, `QueryParams` | percent coding and query parameters |
| `Scheduler`, `Workers`, `Shutdown`, `Fibers`, `IoStop` | the task queue, every interleaving of the workers, the way to their end, fibers, and the shutdown of a one-worker `IOManager` |
| `Timers`, `Wakeup`, `TimerSteps` | the ordered timer set, the wait of the idle worker, and the one as steps of the other |
| `IoEvents`, `HookedIo`, `HookedTimeout`, `HookedCall` | the event table of `IOManager`; hooked IO calls, their timeouts, and one call as the loop it is |
| `Blocks`, `ByteArrays`, `Streams`, `Codec`, `TypedStream` | `ByteArray` over linked blocks, scatter and gather, typed values |

Main results:

- `http_parser_execute` computes the byte machine (`HttpParser.Parser.Execute`), so splitting the
  input changes neither the parser's fields nor its callbacks (`HttpSplit.SplitInvariance`), and no
  assertion can fail on any input (`HttpSpec.RunKeeps`).
- Any number of requests or responses on one connection, each with its first line, its header lines in
  any order and its body with or without trailer, come out one after the other as they were sent; after
  each the parser waits for the next exactly if the version digits and the `close` and `keep-alive`
  tokens of the message's Connection lines say so (`HttpPipeline.PipelineRun`,
  `HttpPipeline.OneRun`), and after the last it takes nothing but line breaks
  (`HttpPipeline.ClosedRun`). A message that asks for another protocol stops the parser at its end
  (`HttpPipeline.UpgradeStops`). No accepted length wraps (`HttpFraming.SizeDigits`,
  `HttpFraming.LengthDigits`).
- A header block with two lengths, or with a length and the chunked coding, is never accepted,
  whatever bytes are before, between and after the two lines (`HttpRefused.ContradictionNever`), and
  blocks are refused for nothing else of that kind (`HttpRefused.BlockAccepted`).
- Once `stopping()` has returned true, every task ever scheduled has run exactly once and none is
  left (`Workers.Quiescence`); no fiber is on two workers (`Workers.FiberExclusive`). From every
  reachable state after `stop()` whose tasks can be taken, the workers' own steps lead to the end of all
  workers with every task done (`Shutdown.CanStop`, `Shutdown.StopEnds`), and a worker runs what was
  asked for (`Shutdown.DoneAsAsked`). The same holds for a one-worker `IOManager` when its timers expire
  and its events come (`IoStop.IoCanStop`).
- No timer wake-up is lost while the worker is blocked (`Wakeup.NoLostWakeup`), and the methods of
  `TimerManager` are steps of that system, their notification the step's (`TimerSteps`).
- A hooked wait is answered by at most one scheduling (`HookedIo.OneWakePerYield`), and for every run
  and every waiting call it is known whether its timeout can still end the wait
  (`HookedTimeout.TimeoutEffective`).
- The pending-event count, the event contexts and the kernel's interest set agree after every
  operation, also when `epoll_ctl` fails (`IoEvents.IOManager`), and an event wakes the callback or fiber
  that it was added with, whatever happened in between (`IoEvents.WakesAsAsked`).
- `ByteArray` is a flat byte string with a cursor (`ByteArrays.ByteArray`), typed values stand in it in
  the stated format (`TypedStream.WireFormat`), and a typed stream is read back as it was written,
  with one exact exception (`TypedStream.RoundTrip`).
- `Uri::Create` and `toString` have a normal form for exactly the host names, not for bracketed
  addresses (`UriNormal.NormalForm`).

Some natural claims about the code are false. For these the exact condition is proved:

- `HttpTokens.NotHeard`: with `Connection: c, close` the parser does not hear `close`. A word is heard
  exactly unless the one before it was heard and is a proper beginning of `keep-alive`, `close` or `upgrade`
  with the comma right behind it (`HttpTokens.FlagsSay`, `HttpTokens.AllHeard`). After a comma a tab, or a
  word that begins with an underscore, silences the rest of the list (`HttpTokens.DeafRun`).
- `HttpPipeline.KeepsOpen`: the version counts as 1.1 or later exactly when neither digit is 0, so 2.0 is
  treated like 1.0.
- `Shutdown.StuckForever`: a task pinned to a worker that does not exist stays queued, and no idle check is
  ever true. `Shutdown.CanStop` says that the workers can end when no queued task names a worker that there
  is not.
- `IoStop.TimerLeftBehind`: a timer added by another thread while the shutdown check is under way
  is left armed. `IoStop.IoQuiescence` says exactly which timers and events remain.
- `HookedIo.TimeoutSpent`: a timeout callback collected in one attempt of a hooked call can run in
  the next attempt before its event is registered; the call then waits with no timeout.
  `HookedTimeout.TimeoutEffective` says for every run when a waiting call still has its timeout: exactly
  when no step of the run spent its flag and none deleted its event. `HookedTimeout.SpendsWhen` says
  exactly which callbacks are spent, and `HookedTimeout.FreshKept` that callbacks of earlier attempts
  are left over exactly when `Timer::cancel` came too late.
- `IoEvents.IOManager.Deliver`: the assertion in `triggerEvent` fails exactly when a report mixes a
  registered event with one that is not, and `epoll_ctl` succeeds. A report that the kernel could still
  make is safe; `IoEvents.StaleReport` is one that became stale because another thread's `delEvent` came
  between `epoll_wait` and its handling.
- `ByteArrays.ByteArray.Read`: a read of zero bytes finds no block exactly when the cursor is at the
  capacity. So `TypedStream.RoundTrip` fails exactly when the last item is an empty string and the
  encodings fill whole blocks.
- `UriNormal.NormalForm`: a bracketed address is printed without its brackets. `UriNormal.AddressNeverBack`
  has the URLs, `scheme://[address]` for every address with a colon.
- `Wakeup.TimeoutIs`: delays from 2^31 ms on can turn into a wait without limit.
- `Timers.RolloverMeans`: with a previous time below one hour, any step back counts as a rollover.
- `QueryParams.SplitInvertsJoin`: `=` passes the encoder, so a key that holds one is split at the wrong place.

## Model

| member | source | states |
|---|---|---|
| `HttpSpec.SwitchKeeps` | sylar/http/http-parser/http_parser.c:713-2076 | One pass through the switch on any byte in any sane state fails no assertion, keeps the sane-state invariant, keeps the data marks in step with the state, and goes down in rank whenever it re-executes |
| `HttpSpec.ChainKeeps` | sylar/http/http-parser/http_parser.c:713-714 | Every chain of re-executions of a byte ends, by rank, in a sane state, a stop or an error other than a header overflow, never in a failed assertion |
| `HttpSpec.RunKeeps` | sylar/http/http-parser/http_parser.c:638-2084 | From any sane state no input makes an assertion fail: a run consumes its input, stops for an upgrade with fewer bytes left, or reports an error, and leaves a sane state |
| `HttpSpec.InitialKeeps` | sylar/http/http-parser/http_parser.c:2146-2154 | A freshly initialised parser of any type is sane |
| `HttpSpec.StepKeeps` | sylar/http/http-parser/http_parser.c:707-712 | A byte of the header part is counted before it is examined, and examining it keeps the invariant with the count at most the limit |
| `HttpSpec.UrlStepTarget` | sylar/http/http-parser/http_parser.c:488-636 | A URL byte leads to a URL state or to the dead state |
| `HttpSpec.ValueNextKeeps` | sylar/http/http-parser/http_parser.c:1524-1660 | A byte of a header value keeps the matcher index within its word and the length within 64 bits, and never reaches the state that the source asserts unreachable |
| `HttpCount.RunCounts` | sylar/http/http-parser/http_parser.c:154-161 | While no error is set the counter equals the counted bytes since the last header block, chunk-size line or chunk ended, and is at most the limit |
| `HttpCount.ChainCounts` | sylar/http/http-parser/http_parser.c:1826-2045 | Examining a byte resets the counter exactly when it ends such a block, and else leaves it alone |
| `HttpExecute.HopLogs` | sylar/http/http-parser/http_parser.c:90-146 | A pass on marks and pending callbacks has the same callbacks as a pass that reports every byte at once |
| `HttpExecute.SwitchAt` | sylar/http/http-parser/http_parser.c:713-2076 | What is left of a run after a pass through the switch on marks is what the byte machine has left |
| `HttpExecute.BodyRun` | sylar/http/http-parser/http_parser.c:1873-2026 | Taking n body bytes at once is the same as taking them one at a time |
| `HttpExecute.BodyLast` | sylar/http/http-parser/http_parser.c:1884-1907 | The last byte of a body of known length is reported and then examined again as the end of the message |
| `HttpExecute.SyncByte` | sylar/http/http-parser/http_parser.c:1254-1372 | Inside a bulk loop over a header, counting the bytes afterwards comes to the same as counting each first |
| `HttpParser.Callback` | sylar/http/http-parser/http_parser.c:90-146 | A data callback reports exactly what lies between its mark and the given end, and clears the mark |
| `HttpParser.ApplyHop` | sylar/http/http-parser/http_parser.c:90-146 | The marks and callbacks of a pass are those that the specification of the pass gives |
| `HttpParser.Pass` | sylar/http/http-parser/http_parser.c:713-2076 | One pass through the switch for the states without a bulk loop continues the run as the byte machine would |
| `HttpParser.BodyPass` | sylar/http/http-parser/http_parser.c:1873-2026 | The bulk loops over bodies continue the run as the byte machine would |
| `HttpParser.FieldScan` | sylar/http/http-parser/http_parser.c:1248-1367 | The loop over a header name matches and counts as the byte machine does, up to the first byte that is no token |
| `HttpParser.FieldPass` | sylar/http/http-parser/http_parser.c:1248-1382 | The whole case for header names, with its late counting and overflow, continues the run as the byte machine would |
| `HttpParser.ValueScan` | sylar/http/http-parser/http_parser.c:1469-1662 | The loop over a header value matches, counts and refuses bytes as the byte machine does |
| `HttpParser.SkipValue` | sylar/http/http-parser/http_parser.c:1498-1517 | The skip to the end of a line in the general state misses no byte that the byte machine would refuse, up to the byte at which the source resumes |
| `HttpParser.ValuePass` | sylar/http/http-parser/http_parser.c:1469-1668 | The whole case for header values continues the run as the byte machine would |
| `HttpParser.Reexecute` | sylar/http/http-parser/http_parser.c:713-714 | The `reexecute` loop ends, and with it one byte or one bulk of bytes has been dealt with |
| `HttpParser.ByteLoop` | sylar/http/http-parser/http_parser.c:707-2076 | The loop over the input does what the byte machine does with the whole input |
| `HttpParser.Leftovers` | sylar/http/http-parser/http_parser.c:2052-2076 | The callbacks at the end of the input report what the marks still hold |
| `HttpParser.Parser.constructor` | sylar/http/http-parser/http_parser.c:2146-2154 | A new parser is in the start state of its type with nothing reported |
| `HttpParser.Parser.Execute` | sylar/http/http-parser/http_parser.c:638-2084 | On no input: the end-of-input answer of the source. On an earlier error: nothing happens. Else the fields, the callbacks, the error and the number of bytes taken are those of the byte machine run on the whole input; after a header overflow only that there is an error |
| `HttpSplit.RunSplit` | sylar/http/http-parser/http_parser.c:638-2084 | A run over a + b is a run over a followed, if that consumed everything, by a run over b |
| `HttpSplit.SplitInvariance` | sylar/http/http-parser/http_parser.c:638-2084 | Two parsers in the same state, one given a + b at once and the other a and then b, end in the same fields with the same callbacks; an upgrade exit comes at the same byte with the same fields and callbacks, and an error at the same byte |
| `HttpFraming.SizeDigits` | sylar/http/http-parser/http_parser.c:1941-1976 | The digits of a chunk size are accepted exactly when their numeral is at most the largest length that passes the guard; then the length is that numeral |
| `HttpFraming.LengthDigits` | sylar/http/http-parser/http_parser.c:1524-1557 | The digits of a Content-Length are accepted exactly when their numeral is at most the largest length that passes the guard; then the length is that numeral and not the sentinel |
| `HttpFraming.SizeLineRun` | sylar/http/http-parser/http_parser.c:1925-2005 | A chunk-size line with any extension leads to the data of the chunk, or for size zero to the trailer |
| `HttpFraming.ChunkRun` | sylar/http/http-parser/http_parser.c:1925-2045 | The encoding of a nonempty chunk reports its data and leads back to the start of a chunk size |
| `HttpFraming.ChunksRun` | sylar/http/http-parser/http_parser.c:1925-2045 | The encodings of any list of nonempty chunks report the concatenation of their data and complete no message |
| `HttpFraming.IdentityRun` | sylar/http/http-parser/http_parser.c:1873-1907 | A body of known length n > 0 is exactly the next n bytes, and then the message is complete |
| `HttpNames.CandidatePrefix` | sylar/http/http-parser/http_parser.c:963-1014 | However the input is split, the bytes of a method token so far are the first bytes of the current candidate, as many as the index says |
| `HttpNames.MethodRun` | sylar/http/http-parser/http_parser.c:920-1014 | On the name of any method the switch arrives at that method |
| `HttpNames.MethodRecognised` | sylar/http/http-parser/http_parser.c:920-1014 | A token is accepted exactly when it is the name of a method, which is then recorded; any other is an invalid method |
| `HttpNames.EitherRecognised` | sylar/http/http-parser/http_parser.c:739-779 | A parser for either kind of message accepts a token as a method exactly when it is the name of one, HEAD among them, and expects a response only after "HT" |
| `HttpNames.FieldTracks` | sylar/http/http-parser/http_parser.c:1248-1366 | The state of the header-name matcher says which known names the bytes so far begin, and which one they are |
| `HttpNames.HeaderRecognised` | sylar/http/http-parser/http_parser.c:1198-1382 | A header name is reported whole, and is taken for Content-Length, Transfer-Encoding, Upgrade, Connection or Proxy-Connection exactly when it equals it ignoring case |
| `HttpLines.PadRun` | sylar/http/http-parser/http_parser.c:1384-1396 | Blanks after the colon are skipped, also over line breaks that a blank follows |
| `HttpLines.BeforeRun` | sylar/http/http-parser/http_parser.c:1198-1396 | From the start of a line, which may be the byte that ends the line before it, the name is recognised and reported and the colon and what follows it is skipped; the flag of the line before takes effect and its value, if empty, is reported |
| `HttpLines.ValueRest` | sylar/http/http-parser/http_parser.c:1469-1745 | A value is reported whole, without its line breaks, when it goes on over several lines |
| `HttpLines.LineRun` | sylar/http/http-parser/http_parser.c:1198-1756 | A line that the parser does not act on, with an empty value too, is reported and leaves alone all fields that matter to the next line |
| `HttpLines.LengthLineRun` | sylar/http/http-parser/http_parser.c:1423-1437 | A Content-Length line, in any case and with blanks around its digits, gives the next lines its number as the length |
| `HttpLines.LengthAgain` | sylar/http/http-parser/http_parser.c:1429-1432 | A second Content-Length line is refused as an unexpected length, whatever follows |
| `HttpLines.CodingLineRun` | sylar/http/http-parser/http_parser.c:1416-1421 | A Transfer-Encoding line with the value chunked, in any case, sets the chunked flag for what follows |
| `HttpLines.TokensLineRun` | sylar/http/http-parser/http_parser.c:1444-1456 | A Connection or Proxy-Connection line with any list of tokens is reported, and sets the keep-alive, close and upgrade flags that its heard words stand for, and no other |
| `HttpLines.UpgradeLineRun` | sylar/http/http-parser/http_parser.c:1409-1412 | An Upgrade line with a value, over several lines too, sets the upgrade flag; with none it sets nothing |
| `HttpLines.FoldedLength` | sylar/http/http-parser/http_parser.c:1684-1687 | A line that continues a Content-Length begins behind its digits |
| `HttpLines.LengthOver` | sylar/http/http-parser/http_parser.c:1559-1562 | Behind a space, in the same line or one that continues it, a length has no more digits: any byte but a space there is refused |
| `HttpLines.BlockRun` | sylar/http/http-parser/http_parser.c:1198-1756 | Any number of header lines with at most one length are reported in order, and each does to the fields what it does alone |
| `HttpLines.BlockMeans` | sylar/http/http-parser/http_parser.c:1384-1756 | After a block each flag is set exactly if it was before or some line of the block says so, the length is the one given, and no other field has changed |
| `HttpLines.BlockRefused` | sylar/http/http-parser/http_parser.c:1429-1432 | A block with more lengths than one is refused as an unexpected length |
| `HttpTokens.WordNext` | sylar/http/http-parser/http_parser.c:1595-1624 | On the bytes of a word the token matcher tells whether they begin or are keep-alive, close or upgrade, ignoring case |
| `HttpTokens.CommaRun` | sylar/http/http-parser/http_parser.c:1626-1660 | A comma ends an item and sets the flag of its word, unless the word is the proper beginning of a known one: then the next item is taken for a part of it |
| `HttpTokens.MoreRun` | sylar/http/http-parser/http_parser.c:1576-1660 | The items after the first set the flags of the words that are heard |
| `HttpTokens.ItemsRun` | sylar/http/http-parser/http_parser.c:1444-1660 | A list of words with any spaces around them is reported as it stands and sets exactly the flags of the known words that are heard; the last takes effect when the line is over |
| `HttpTokens.FlagsSay` | sylar/http/http-parser/http_parser.c:1637-1660 | The flags after a list are those that some heard item is the word of, ignoring case |
| `HttpTokens.AllHeard` | sylar/http/http-parser/http_parser.c:1626-1660 | Unless an item before it is clipped, an item is heard |
| `HttpTokens.NotHeard` | sylar/http/http-parser/http_parser.c:1606-1632 | In the list "c, close" the word close is not heard |
| `HttpTokens.DeafRun` | sylar/http/http-parser/http_parser.c:1576-1593 | After a comma a tab or an underscore makes the parser ignore the rest of the list |
| `HttpMessage.TrailerRun` | sylar/http/http-parser/http_parser.c:1989-2005 | The lines of a trailer are reported and count for the connection, and the blank line after them completes the message |
| `HttpMessage.ChunkedRun` | sylar/http/http-parser/http_parser.c:1925-2045 | The chunked encoding of any list of nonempty chunks, with any extensions and any lines as trailer, is reported chunk by chunk and completes one message with nothing left over (section 4.1 of RFC 7230) |
| `HttpMessage.MessageRun` | sylar/http/http-parser/http_parser.c:1198-2045 | Any header block that asks for no upgrade and the body that it announces, none, sized or chunked, are reported exactly and completely as one message; the parser is then at the start of a message of its type exactly if version, flags and trailer keep the connection open, and else dead |
| `HttpMessage.MessageMeans` | sylar/http/http-parser/http_parser.c:1198-2045 | What is reported of a message has its data as the body and one completion (section 3.3 of RFC 7230) |
| `HttpMessage.EofWhenNeeded` | sylar/http/http-parser/http_parser.c:2087-2110 | A body ends with the connection exactly for a response with neither length nor coding whose status is not 1xx, 204 or 304, and no message follows it |
| `HttpMessage.OpenEndedRun` | sylar/http/http-parser/http_parser.c:1910-1914 | For such a response everything that comes is its body, and no message is complete before the stream ends |
| `HttpMessage.UpgradeRun` | sylar/http/http-parser/http_parser.c:1779-1841 | After the headers of a message that asks for another protocol and has no body, or whose method is CONNECT, the parser stops and leaves the rest alone |
| `HttpMessage.UpgradeBodyRun` | sylar/http/http-parser/http_parser.c:1916-1923 | With a Content-Length such a message is read to the last byte of its body before the parser stops |
| `HttpStart.OriginForm` | sylar/http/http-parser/http_parser.c:488-636 | A target that begins with a slash is accepted exactly when all its bytes are visible ASCII |
| `HttpStart.AuthorityForm` | sylar/http/http-parser/http_parser.c:1016-1032 | A host and port are a target of CONNECT |
| `HttpStart.ServerBytes` | sylar/http/http-parser/http_parser.c:543-569 | In a target an authority is exactly any bytes of user information, brackets and at signs with no two at signs side by side |
| `HttpStart.AbsoluteForm` | sylar/http/http-parser/http_parser.c:488-636 | A scheme of letters and such an authority, with nothing or a path behind it, is a target of every method but CONNECT |
| `HttpStart.TargetOnly` | sylar/http/http-parser/http_parser.c:1016-1087 | The bytes of a target are reported whole |
| `HttpStart.LettersRun` | sylar/http/http-parser/http_parser.c:1089-1196 | The protocol name and the separators lead from state to state |
| `HttpStart.RequestLineRun` | sylar/http/http-parser/http_parser.c:920-1196 | A request line reports its target, gives the method and as major and minor its two version digits, and clears all that an earlier message left |
| `HttpStart.ShortLineRun` | sylar/http/http-parser/http_parser.c:1064-1087 | A request line without a version has version 0.9 |
| `HttpStart.IceRun` | sylar/http/http-parser/http_parser.c:1094-1136 | With the method SOURCE the protocol may be ICE |
| `HttpStart.CodeDigits` | sylar/http/http-parser/http_parser.c:843-886 | The digits of a status code are accepted exactly when their numeral is at most 999, and it is the status |
| `HttpStart.StatusLineRun` | sylar/http/http-parser/http_parser.c:763-918 | A status line reports its reason, empty or not, and gives the number of its code as the status and its version digits as major and minor |
| `HttpPipeline.OneRun` | sylar/http/http-parser/http_parser.c:638-2084 | A whole request or response is reported exactly; afterwards the parser waits for the next message of its kind exactly if, from version 1.1 on, no Connection line of the block or the trailer says close, or, before, one says keep-alive |
| `HttpPipeline.PipelineRun` | sylar/http/http-parser/http_parser.c:453-466 | Any number of messages, all but the last of which keep the connection open, come out in their order; the parser then waits for another exactly if the last one does too |
| `HttpPipeline.PipelineMeans` | sylar/http/http-parser/http_parser.c:453-466 | They are that many completions, and their data one after the other |
| `HttpPipeline.TwoRequests` | sylar/http/http-parser/http_parser.c:453-466 | Two requests of version 1.1 without a Connection line, as text, come out as two, and the parser waits for a third |
| `HttpPipeline.ClosedRun` | sylar/http/http-parser/http_parser.c:716-724 | After a message that closes the connection line breaks are skipped and any other byte is refused as a closed connection |
| `HttpPipeline.UpgradeStops` | sylar/http/http-parser/http_parser.c:1757-1841 | A request by both headers or CONNECT, or a response with status 101, stops the parser at the end of its headers with the field upgrade set |
| `HttpLineEnds.BareLineFeed` | sylar/http/http-parser/http_parser.c:900-1757 | In every line of a head a line feed alone does what it does after a carriage return, but for the count of header bytes |
| `HttpLineEnds.EitherFirst` | sylar/http/http-parser/http_parser.c:726-761 | A parser for either kind of message does on a first line and all that follows what one of that kind does |
| `HttpRefused.BlockAccepted` | sylar/http/http-parser/http_parser.c:1768-1774 | A header block is accepted exactly when it has no length, or one and no chunked coding; any other is refused as an unexpected length |
| `HttpRefused.BlockHop` | sylar/http/http-parser/http_parser.c:1198-1826 | A pass through the switch inside a header block clears neither flag, and accepts the block only if not both are set |
| `HttpRefused.BlockStays` | sylar/http/http-parser/http_parser.c:1198-1826 | For any bytes: as long as no header block is accepted a run stays inside the one it is in, with the flags there were; with both set it never accepts it |
| `HttpRefused.LimitApart` | sylar/http/http-parser/http_parser.c:154-161 | The limit on header bytes decides only whether there is an overflow, never anything else about a run |
| `HttpRefused.ContradictionNever` | sylar/http/http-parser/http_parser.c:1423-1774 | A block with two lengths, or a length and the chunked coding in either order, is never accepted, for any bytes before, between and after the two lines, neither of which is folded |
| `HttpExact.TargetExact` | sylar/http/http-parser/http_parser.c:1016-1087 | Of any bytes without breaks a target is accepted exactly when the URL machine can end behind them, and refused as an invalid URL else |
| `HttpExact.VersionExact` | sylar/http/http-parser/http_parser.c:801-1167 | Of any three bytes a version is accepted exactly when they are a digit, a dot and a digit, which become major and minor |
| `HttpExact.LetterExact` | sylar/http/http-parser/http_parser.c:781-1196 | In the states between the letters of a protocol name and its separators any other byte is refused |
| `HttpExact.ProtocolExact` | sylar/http/http-parser/http_parser.c:763-1106 | Where a protocol name begins nothing but its first letter is accepted, or spaces before it in a request |
| `HttpExact.NameExact` | sylar/http/http-parser/http_parser.c:1208-1378 | A header name is refused at its first byte that is none of a token, up to the colon |
| `HttpExact.ValueExact` | sylar/http/http-parser/http_parser.c:1490-1494 | A byte that no header may have is refused in a value, unless the parser is lenient |
| `HttpExact.CodingOver` | sylar/http/http-parser/http_parser.c:1633-1635 | Behind chunked another byte than a space makes it another coding, which sets no flag |
| `HttpExact.SizeExact` | sylar/http/http-parser/http_parser.c:1925-1976 | A chunk size is refused at its first byte that is no hexadecimal digit, unless the extension or the end of the line begins there |
| `HttpExact.ChunkEndExact` | sylar/http/http-parser/http_parser.c:1989-2045 | The line ends of a chunk are just carriage return and line feed |
| `HttpExact.LengthBadStep` | sylar/http/http-parser/http_parser.c:1423-1545 | A length is refused at its first byte that is neither digit nor space |
| `HttpChars.AuthorityChars` | sylar/http/http-parser/http_parser.c:402-440 | The bytes of a host name and of user information, one by one |
| `HttpChars.TokenChars` | sylar/http/http-parser/http_parser.c:191-240 | The bytes of a token and what they are compared as |
| `HttpChars.TextChars` | sylar/http/http-parser/http_parser.c:248-290 | The bytes of a header value and of a URL |
| `HttpChars.AddressChars` | sylar/http/http-parser/http_parser.c:2160-2253 | The bytes of a bracketed address and of its zone |
| `UrlSplit.ScanByteOk` | sylar/http/http-parser/http_parser.c:2356-2417 | A byte of the URL keeps the fields found so far nonempty, in bounds, in order and holding only bytes proper to them |
| `UrlSplit.HostByteOk` | sylar/http/http-parser/http_parser.c:2268-2318 | A byte of the authority keeps user information, host and port apart, in order and within the authority |
| `UrlSplit.ParseHost` | sylar/http/http-parser/http_parser.c:2256-2336 | http_parse_host finds the parts of the authority that the host state machine gives, and refuses an unfinished one |
| `UrlSplit.PortNumber` | sylar/http/http-parser/http_parser.c:2436-2460 | The port is the decimal value of its digits, and a URL with one above 65535 is refused |
| `UrlSplit.UrlFields` | sylar/http/http-parser/http_parser.c:2343-2464 | The fields of every accepted URL below 2^16 bytes are nonempty, in bounds, disjoint and in the order of the URL; user information, host and port lie within the authority |
| `UrlSplit.ParseUrl` | sylar/http/http-parser/http_parser.c:2343-2464 | http_parser_parse_url reports these fields, and the port field's decimal value as the port |
| `Uris.Uri.Create` | sylar/uri.cc:14-97 | Create makes a Uri exactly of the URLs that the splitter accepts, with the parts of the URL and, with no port, the default port of http, ws and https |
| `Uris.CreatedOk` | sylar/uri.cc:14-97 | The parts of a Uri with a scheme hold only bytes that a printed Uri can hold in their place, and its path is empty or starts with a slash |
| `Uris.CreatedPort` | sylar/uri.cc:102-117 | getPort gives the number in the URL or else the well-known port of the scheme, also for wss, which Create does not know |
| `Uris.DecimalBack` | sylar/uri.cc:141-157 | A printed port has only digits, and their value is the port |
| `UriNormal.PrintedStands` | sylar/uri.cc:141-157 | The parts of a Uri stand in what toString prints, in order, with the delimiters between them |
| `UriNormal.SplitPrinted` | sylar/uri.cc:141-157 | What a Uri with a host name prints is split into just the parts it was printed from |
| `UriNormal.CreatedPrinted` | sylar/uri.cc:14-157 | Creating a Uri from what another one prints gives that one back, with an empty path replaced by "/" |
| `UriNormal.AddressLost` | sylar/uri.cc:141-157 | What a Uri with an address for a host prints is refused or has another host |
| `UriNormal.NormalForm` | sylar/uri.cc:14-157 | For every accepted URL with a scheme: its printed form is accepted with the same scheme, user information, host, port, path, query and fragment exactly when the host is a name, and then it prints as itself |
| `UriNormal.AddressAccepted` | sylar/uri.cc:14-97 | Every URL of a scheme and a bracketed address is accepted, with what is in the brackets as the host |
| `UriNormal.AddressNeverBack` | sylar/uri.cc:141-157 | For every address with a colon the printed form of that Uri is refused or read with other parts |
| `UrlForms.ConnectForm` | sylar/http/http-parser/http_parser.c:2343-2464 | For CONNECT a host name and a port are accepted, with just these two fields |
| `UrlForms.ConnectNeedsPort` | sylar/http/http-parser/http_parser.c:2430-2434 | and a host name alone is refused |
| `UrlForms.ConnectNeedsHost` | sylar/http/http-parser/http_parser.c:2430-2434 | and so is a path |
| `UrlForms.LocalForm` | sylar/http/http-parser/http_parser.c:2343-2464 | A path, with a query and a fragment or without, is split into just these fields |
| `Uris.PortPrinted` | sylar/uri.cc:125-157 | The port is left out of the printed form exactly for http and ws on port 80 and https on port 443 |
| `UrlText.UrlEncode` | sylar/util.cpp:567-608 | The encoder with its lazily allocated buffer gives the byte-wise encoding |
| `UrlText.UrlDecode` | sylar/util.cpp:610-651 | The decoder with its lazily allocated buffer gives the left-to-right decoding; a broken escape is kept as it is |
| `UrlText.RoundTrip` | sylar/util.cpp:519-651 | Decoding undoes encoding, for every byte string and both settings of the flag (section 2.1 of RFC 3986) |
| `UrlText.EncodedIs` | sylar/util.cpp:519-608 | Letters, digits and - . = _ ~ stay, a space becomes a plus sign where that is asked for, and any other byte a percent sign and two upper-case digits |
| `UrlText.DecodedUnits` | sylar/util.cpp:610-651 | Every escape, with digits in either case, becomes the byte that it stands for, a plus sign a space where that is asked for, and every other byte stays, a percent sign that begins no escape among them |
| `UrlText.EveryText` | sylar/util.cpp:610-651 | Every text is made of such units |
| `UrlText.EncodedAlphabet` | sylar/util.cpp:519-541 | An encoding holds only unreserved bytes, escapes and plus signs; an equals sign passes through |
| `QueryParams.HttpRequest.InitQueryParam` | sylar/http/http.cc:243-283 | The parameters are parsed once, into those of the query string, the first of equal keys winning |
| `QueryParams.RawSplit` | sylar/http/http.cc:243-283 | From a query of any pairs, the keys without equals signs and the values without ampersands, all pairs come out decoded and in order; what is behind the last without an equals sign is ignored |
| `QueryParams.EveryQuery` | sylar/http/http.cc:243-283 | Every query is of that form |
| `QueryParams.CaseKeysEqual` | sylar/http/http.cc:69-72 | Two keys are one exactly when they agree up to their first NUL, byte by byte but for the case of letters |
| `QueryParams.FirstStays` | sylar/http/http.cc:276-277 | Of the pairs with one key the first stays |
| `QueryParams.SplitInvertsJoin` | sylar/http/http.cc:243-283 | Splitting joined encoded pairs gives the pairs back if and only if no key holds an equals sign |
| `QueryParams.InsertAllExact` | sylar/http/http.cc:276-277 | Inserting pairs keeps them all, and them alone, if and only if their keys are distinct ignoring case |
| `QueryParams.ParametersRecovered` | sylar/http/http.cc:243-283 | A request whose query is joined from encoded pairs ends up with exactly these pairs as parameters, for keys free of equals signs and NUL and distinct ignoring case |
| `Scheduler.TaskQueue.Schedule` | sylar/scheduler.h:136-146 | A task goes to the end of the queue, one with neither fiber nor callback is dropped, and a tickle is due exactly when the queue was empty |
| `Scheduler.TaskQueue.Take` | sylar/scheduler.cc:224-275 | The scan takes the first task that is not pinned elsewhere and whose fiber is not still running, leaves all others as they were, and asks for a tickle exactly when it passed a task pinned elsewhere or left one behind |
| `Scheduler.FirstIs` | sylar/scheduler.cc:229-269 | The position the scan stops at is the first eligible one |
| `Workers.CountsKept` | sylar/scheduler.cc:204-315 | Every step keeps the active and idle counters equal to the workers they count, and loses or makes up no task |
| `Workers.TicketsKept` | sylar/scheduler.cc:204-315 | Every step keeps each scheduled task in exactly one place: queued and not run, with one worker, or done and run once |
| `Workers.FibersKept` | sylar/scheduler.cc:229-300 | Every step keeps a queued fiber waiting for just its entry, a taken fiber ready, and a running fiber on one worker |
| `Workers.Conservation` | sylar/scheduler.cc:204-315 | In every reachable state scheduled = queued + active + completed, and the active counter is the number of workers with a task |
| `Workers.QuietStays` | sylar/scheduler.cc:117-137 | No step leaves quiescence |
| `Workers.Quiescence` | sylar/scheduler.cc:117-137 | Once stopping() has returned true for one worker, in every later state the queue is empty, no worker holds or executes a task, and every task was executed exactly once; a worker exits only after that |
| `Shutdown.CheckDecides` | sylar/scheduler.cc:117-121 | The idle check is true exactly when stop() was called, the queue is empty and no worker has a task |
| `Shutdown.EndDecides` | sylar/scheduler.cc:302-315 | A worker whose check was true ends when it next finds no task, and any other goes idle |
| `Shutdown.CanStop` | sylar/scheduler.cc:117-315 | From every reachable state after stop(), with at least one worker and no queued task that names one that there is not, some run of the workers' own steps ends all workers, and every task was executed once |
| `Shutdown.StopEnds` | sylar/scheduler.cc:139-202 | So a call of stop() in any such state, stopping or not, and then steps of the workers end them all |
| `Shutdown.StuckForever` | sylar/scheduler.cc:229-240 | A task pinned to a worker that does not exist is never taken, and no check is true after it |
| `Shutdown.PinnedToIts` | sylar/scheduler.cc:229-240 | In every reachable state a worker holds or executes only tasks that name it or none |
| `Shutdown.DoneAsAsked` | sylar/scheduler.h:90-146 | Whatever happens between, a worker that has taken a task has the callback or fiber that was scheduled, and is the worker that was named unless none was |
| `Workers.FiberExclusive` | sylar/scheduler.cc:229-300 | In every reachable state a fiber is executed by at most one worker, and a fiber about to be resumed is ready |
| `Workers.FiberStep` | sylar/fiber.cc:200-287 | No step of the scheduler does to a fiber what an assertion of the fiber refuses: each resume, yield or end is legal in the state the fiber is in, and no other step changes that state |
| `Workers.FiberLives` | sylar/fiber.cc:200-287 | In every interleaving what happens to a fiber is a life of the fiber state machine, ending in the state it has |
| `Workers.ResumesAnswered` | sylar/scheduler.cc:281-300 | In every interleaving a waiting fiber has yielded once for each time it was resumed since it last waited, and one that runs or has ended once less |
| `Workers.EntriesKept` | sylar/scheduler.cc:252-261 | No step drops a queued task; the entry of a fiber queued again before it yielded stays queued |
| `Fibers.Fiber.Reset` | sylar/fiber.cc:174-194 | Only an ended fiber with a stack is given a new callback, and is ready again |
| `Fibers.Fiber.Resume` | sylar/fiber.cc:200-223 | A fiber that is neither running nor ended becomes the current one and runs |
| `Fibers.Fiber.Yield` | sylar/fiber.cc:225-263 | Control goes back to the scheduler's fiber or the thread's own; a fiber that has not ended is ready again |
| `Fibers.Fiber.Finish` | sylar/fiber.cc:271-287 | A fiber whose callback returned has ended, without its callback, and control goes back |
| `Fibers.Lifecycle` | sylar/fiber.cc:174-287 | Every resume is answered by one yield or one end, and a fiber has ended once more than it was reset exactly when it is in state TERM |
| `IoStop.IoQuiescence` | sylar/iomanager.cc:428-464 | Once the one worker's stopping() has returned true the queue stays empty and nothing runs; the timers and events left are exactly those that other threads added during the check and have not taken back, none if stop() came first |
| `IoStop.WorkKept` | sylar/iomanager.cc:452-584 | Tasks, timers and events change in number by what threads and tasks add or take back, by the tasks that end and by the recurring timers that fire; nothing is lost |
| `IoStop.CheckDecides` | sylar/iomanager.cc:428-435 | Three reads with nothing between them answer true exactly when stop() was called and no timer, event, queued or running task is there |
| `IoStop.IoCanStop` | sylar/iomanager.cc:428-464 | After stop(), from every reachable state, some run in which timers expire, events come and tasks add nothing lets stopping() return true |
| `IoStop.TimerLeftBehind` | sylar/iomanager.cc:428-435 | A run that ends with an armed timer |
| `Timers.ComparatorOrders` | sylar/timer.cc:7-31 | The comparator is a strict total order, null first |
| `Timers.RolloverMeans` | sylar/timer.cc:262-273 | A rollover is a step back of more than an hour, if the previous time is at least an hour; before that it is any step back |
| `Timers.TimerManager.AddTimer` | sylar/timer.cc:126-134 | The new timer is armed for now plus its delay, nothing else changes, and a notification is due exactly when no other armed timer is due as soon, at the same time those at higher addresses being later, and none was given yet |
| `Timers.TimerManager.InsertAndTell` | sylar/timer.cc:242-260 | Inserting keeps the order; the flag is set with the notification |
| `Timers.TimerManager.Erase` | sylar/timer.cc:54-56 | A timer in the set is found and removed, and no other |
| `Timers.TimerManager.Cancel` | sylar/timer.cc:45-59 | An armed timer is disarmed and leaves the set; for any other nothing happens and the answer is false |
| `Timers.TimerManager.Refresh` | sylar/timer.cc:62-80 | An armed timer is moved to now plus its period, and only it |
| `Timers.TimerManager.Reset` | sylar/timer.cc:83-116 | An armed timer gets its new period and is moved to its new deadline, counted from now or from its old start; a notification is due exactly when it was armed, a change was asked for, none was given yet and it is now sooner than every other armed timer; asked for what it has it reports success without looking |
| `Timers.TimerManager.GetNextTimer` | sylar/timer.cc:157-179 | The time to the earliest deadline, 0 if it has come, all bits set with no timer; the notification flag is cleared |
| `Timers.TimerManager.ExpiredCount` | sylar/timer.cc:219-224 | The expired timers are a prefix of the set, and the same one for every address of the probe |
| `Timers.TimerManager.TakeExpired` | sylar/timer.cc:198-228 | The timers whose deadline has come, or all after a rollover, are removed, each once and in order |
| `Timers.TimerManager.RearmAll` | sylar/timer.cc:230-240 | Of the expired timers those that recur are armed for now plus their period and the others are disarmed; every callback is listed once |
| `Timers.TimerManager.ListExpired` | sylar/timer.cc:181-240 | The callbacks of exactly the expired timers, once each in the order of their deadlines; afterwards the armed timers are the others, unchanged, and the recurring ones |
| `TimerSteps.Add` | sylar/timer.cc:126-134 | addTimer is the step of the wait system that adds a timer: the same timers and flag after it, and it asks for a notification exactly when one more is about to be given |
| `TimerSteps.Cancel` | sylar/timer.cc:45-59 | cancel of an armed timer is the step that takes it away |
| `TimerSteps.Refresh` | sylar/timer.cc:62-80 | refresh of an armed timer is the step that moves it, with no notification |
| `TimerSteps.Reset` | sylar/timer.cc:83-116 | reset of an armed timer is the step that does so, with the same notification |
| `TimerSteps.ResetNothing` | sylar/timer.cc:86-90 | and one that asks for what the timer has is the step that changes nothing |
| `TimerSteps.Sample` | sylar/timer.cc:157-179 | getNextTimer is the sampling step: what it answers gives the wait that the step computes |
| `TimerSteps.Expire` | sylar/timer.cc:181-240 | listExpiredCb without a rollover is the step that takes out the timers that are due and puts back those that recur |
| `Wakeup.TimeoutIs` | sylar/iomanager.cc:474-482 | Below 2^31 ms the wait is the time to the next timer, at most 5000 ms, which is also the wait without one; the wait has no limit exactly when the low 32 bits are at least 2^31 |
| `Wakeup.DelaysKept` | sylar/timer.cc:62-116 | No step arms a timer further ahead than its delay |
| `Wakeup.WaitKept` | sylar/iomanager.cc:452-490 | Every step keeps a waiting worker notified or with no timer due before its wait ends |
| `Wakeup.NoLostWakeup` | sylar/iomanager.cc:452-490 | Whenever the worker is blocked, a notification is in the pipe or about to be written, or no armed timer is due before the wait ends, up to the time between sampling the timers and starting to wait |
| `Wakeup.NotificationStays` | sylar/iomanager.cc:407-420 | While the worker waits a pending notification stays pending until it wakes the worker |
| `Wakeup.SampleEnabled` | sylar/timer.cc:157-179 | In every reachable state the wait is between 0 and 5000 ms |
| `IoEvents.AddedOk` | sylar/iomanager.cc:190-257 | Registering an event keeps the table consistent |
| `IoEvents.RemovedOk` | sylar/iomanager.cc:91-114 | Removing an event, with or without scheduling, keeps the table consistent |
| `IoEvents.ScheduledOnce` | sylar/iomanager.cc:91-114 | No registration is scheduled twice |
| `IoEvents.WatchOk` | sylar/iomanager.cc:225-229 | Telling epoll what is left for one descriptor keeps the interest set equal to the registered events of all descriptors |
| `IoEvents.IOManager.Trigger` | sylar/iomanager.cc:91-114 | The bit is cleared, the context emptied and the callback or fiber that it held scheduled; all other contexts stay |
| `IoEvents.WakesAsAsked` | sylar/iomanager.cc:91-257 | Over any further operations: if the registration that an addEvent made is ever scheduled, it is with the callback or fiber it was made with |
| `IoEvents.IOManager.Grow` | sylar/iomanager.cc:168-207 | The context table grows to one and a half times the descriptor, which then has an empty context |
| `IoEvents.IOManager.Register` | sylar/iomanager.cc:210-257 | The context of the event holds the given callback or fiber, its bit is set, and all other contexts stay |
| `IoEvents.IOManager.AddEvent` | sylar/iomanager.cc:190-257 | Succeeds unless epoll_ctl fails, and then the event waits with the callback, or with the calling fiber if there is none, and all other contexts stay; ADD or MOD always fits; bits, contexts, count and interest set agree afterwards |
| `IoEvents.IOManager.DropEvent` | sylar/iomanager.cc:260-344 | delEvent ends a registered event without scheduling, cancelEvent with scheduling what its context held; on failure nothing changes; MOD or DEL always fits |
| `IoEvents.IOManager.CancelAll` | sylar/iomanager.cc:347-394 | What the contexts of the descriptor held is scheduled, read before write, and nothing else, or nothing changes |
| `IoEvents.IOManager.Deliver` | sylar/iomanager.cc:522-570 | What the contexts of the reported registered events held is scheduled, read before write, and the rest stay watched; the assertion fails exactly when a report overlaps the registered events without being within them and epoll_ctl succeeds: never for a report that the kernel could make at that moment, and for one that it could make earlier only if one of its events has ended since |
| `IoEvents.StaleReport` | sylar/iomanager.cc:91-97 | A descriptor with both events registered and watched, a report of both, then delEvent for one of them: handling the report fails the assertion in triggerEvent |
| `HookedIo.OneWakePerYield` | sylar/hook.cc:98-194 | Each yield of a hooked call is answered by at most one scheduling; ETIMEDOUT is reported only if a timer callback of the call itself set the flag; a call that has returned has no timer left in the set |
| `HookedIo.ReturnedStays` | sylar/hook.cc:98-194 | A returned call keeps its result whatever happens later |
| `HookedIo.CallsKept` | sylar/hook.cc:136-190 | Every step keeps schedulings and yields of each call in balance |
| `HookedIo.SlotsKept` | sylar/iomanager.cc:306-345 | Every step keeps a registered event held by a call that waits for it and has not been scheduled |
| `HookedIo.TimersKept` | sylar/timer.cc:136-154 | Every step keeps only the timer of the current attempt in the timer set |
| `HookedIo.TimeoutSpent` | sylar/hook.cc:146-190 | A run after which a call with a timeout waits with no timer left |
| `HookedTimeout.TimedKept` | sylar/hook.cc:136-190 | Every step keeps, for each call with a timeout in an attempt, a timer of its own that is in the set or collected as long as the call is not flagged |
| `HookedTimeout.TimeoutEffective` | sylar/hook.cc:136-190 | For every run and every call that waits with a timeout: some timer of it that is in the set or collected can still schedule it exactly when no step of the run spent its flag and none deleted its event, which is exactly when it is not flagged and its event is registered |
| `HookedTimeout.SpendsWhen` | sylar/hook.cc:149-163 | A callback sets the flag without scheduling the fiber exactly when it comes before the call has registered its event in this attempt, or when cancelEvent fails or finds no such event during the wait |
| `HookedTimeout.FreshKept` | sylar/hook.cc:177-188 | A step leaves a timer of an earlier attempt in the set or collected exactly when it goes on to a new attempt with the timer of this one already collected, so that cancelling it had no effect |
| `HookedTimeout.FreshSpends` | sylar/hook.cc:147-175 | With no timer of an earlier attempt left, a flag is spent only by the timer of this attempt before the event is registered, or with an event that is not cancelled |
| `HookedTimeout.RunLoses` | sylar/hook.cc:136-190 | Once a flag is spent or the event deleted no later step brings the timeout back, and without such a step a call is never left waiting without it |
| `HookedCall.OthersKeep` | sylar/hook.cc:136-190 | No step of others moves a hooked call, except that one of them answers its wait once |
| `HookedCall.Process.Wait` | sylar/hook.cc:141-190 | The wait after EAGAIN, run among the steps of others, leads back to the function, to a failed addEvent or to ETIMEDOUT, or does not end; it counts as one wait unless addEvent failed |
| `HookedCall.Process.DoIo` | sylar/hook.cc:131-194 | The loop of one call is a run of the step system: it goes on after EINTR and after an answered wait without a flag, the first other outcome is its result, it has waited and been scheduled once for each EAGAIN, and none of its timers is left in the set |
| `Blocks.Poke` | sylar/bytearray.cc:452-470 | Writing into a block overwrites the flat memory at the corresponding place and nothing else |
| `ByteArrays.MoreBlocksLeast` | sylar/bytearray.cc:659-681 | The number of blocks added is the least that makes enough room |
| `ByteArrays.ByteArray.constructor` | sylar/bytearray.cc:35-44 | A new array has one block, no contents and its cursor at the start |
| `ByteArrays.ByteArray.AddCapacity` | sylar/bytearray.cc:659-699 | The least number of blocks is added, the memory there was stays, and the cursor finds a block if it was at the end |
| `ByteArrays.ByteArray.CopyIn` | sylar/bytearray.cc:442-474 | The copying loop overwrites the memory at the cursor with the buffer and leaves the cursor in the block behind it |
| `ByteArrays.ByteArray.Write` | sylar/bytearray.cc:435-480 | write overwrites the contents at the position and extends them past their end |
| `ByteArrays.ByteArray.Read` | sylar/bytearray.cc:482-520 | read gives the next n bytes of the contents and moves behind them, refuses when there are fewer, and finds no block exactly for n = 0 at the capacity; the contents stay |
| `ByteArrays.ByteArray.SetPosition` | sylar/bytearray.cc:559-583 | A position up to the capacity is taken, the size raised to it, and the cursor's block found; one beyond is refused; the memory stays |
| `ByteArrays.ByteArray.FindBlock` | sylar/bytearray.cc:570-582 | The walk from the root ends at the block of the position, or at none for the capacity |
| `ByteArrays.ByteArray.Clear` | sylar/bytearray.cc:420-433 | One block, no contents, cursor at the start |
| `ByteArrays.ByteArray.SlicesFrom` | sylar/bytearray.cc:743-770 | The slices are nonempty pieces of consecutive blocks that make up exactly the requested positions |
| `ByteArrays.ByteArray.GetReadBuffers` | sylar/bytearray.cc:735-770 | Slices for the next bytes of the contents, as many as asked for or as there are |
| `ByteArrays.ByteArray.GetWriteBuffers` | sylar/bytearray.cc:816-851 | Slices for the next bytes to write, after making room for them |
| `ByteArrays.GatheredIs` | sylar/bytearray.cc:735-770 | The slices concatenate to the memory at the positions they make up |
| `ByteArrays.SlicesApart` | sylar/bytearray.cc:735-770 | Two slices of one block do not overlap, and the earlier one lies in front |
| `ByteArrays.Scatter` | sylar/bytearray.cc:816-851 | Data that fills the slices from the first on overwrites the flat memory at the first position |
| `Streams.Receive` | sylar/streams/socket_stream.cc:33-48 | What arrives is written at the position, which moves behind it; an error changes nothing |
| `Streams.Send` | sylar/streams/socket_stream.cc:59-74 | What is sent is the next bytes of the contents, and the position moves behind them |
| `Streams.ReadFixSize` | sylar/stream.cc:23-36 | Over any partial transfers, success means that the next length bytes of the stream were written at the starting position, and failure that those which had arrived were |
| `Streams.WriteFixSize` | sylar/stream.cc:56-69 | Over any partial transfers, success means that the next length bytes of the contents were sent, and failure that a prefix of them was |
| `Codec.ZigzagIs` | sylar/bytearray.cc:140-162 | Zigzag coding takes v to 2v and, below zero, to -2v - 1 |
| `Codec.UnzigzagIs` | sylar/bytearray.cc:164-173 | Decoding takes even u to u / 2 and odd u to -(u / 2) - 1 |
| `Codec.Zigzag` | sylar/bytearray.cc:140-173 | The two undo each other on all words of any width |
| `Codec.FixedAt` | sylar/bytearray.cc:84-137 | Byte i of an integer of w bytes is v / 256^i mod 256 in little endian and v / 256^(w-1-i) mod 256 in big endian |
| `Codec.FixedSum` | sylar/bytearray.cc:275-322 | What is read from any bytes is the sum of the bytes, each with that weight |
| `Codec.VarintAt` | sylar/bytearray.cc:183-213 | Byte i of a varint is v / 128^i mod 128, with the top bit set on all bytes but the last |
| `Codec.VarintSum` | sylar/bytearray.cc:324-365 | What is read from any bytes is the sum of the groups of seven bits up to the first byte without the top bit |
| `Codec.FixedBack` | sylar/bytearray.cc:84-137 | A fixed-width integer is read back from its bytes in either byte order |
| `Codec.VarintLengths` | sylar/bytearray.cc:183-213 | A varint takes 1 to 5 bytes for 32 bits and 1 to 10 for 64 |
| `Codec.VarintBack` | sylar/bytearray.cc:324-365 | The reading loop gives back the value and takes just its bytes, whatever follows |
| `TypedStream.ParseBack` | sylar/bytearray.cc:265-418 | Whatever follows it, an encoded item is read back as it was, and just its bytes are taken |
| `TypedStream.WireFormat` | sylar/bytearray.cc:74-257 | The bytes of every kind of item, spelled out: integers by weight in either order, varints by groups, zigzag by value, strings behind their length |
| `TypedStream.ReadFormat` | sylar/bytearray.cc:265-418 | What is read from any bytes ahead, likewise |
| `TypedStream.WriteVarint` | sylar/bytearray.cc:183-213 | The loop writes the varint of its value |
| `TypedStream.WriteItem` | sylar/bytearray.cc:74-257 | Each write method writes the encoding of its value at the position |
| `TypedStream.ReadVarint` | sylar/bytearray.cc:324-365 | The loop reads the varint ahead, or runs out of bytes exactly when it is unfinished |
| `TypedStream.ReadItem` | sylar/bytearray.cc:265-418 | Each read method gives the item ahead and takes its bytes, or none if they are too few; the one exception is an empty string whose length ends at the very end of the memory. A read that fails takes nothing of a fixed-width integer, all that is left of a varint, and the length of a string |
| `TypedStream.RoundTrip` | sylar/bytearray.cc:74-418 | Any items written to a new array of any block size in either byte order and read back from the start are the same items, and every byte is consumed, exactly unless the last item is an empty string and the encodings fill whole blocks |
| `TypedStream.LastRead` | sylar/bytearray.cc:482-491 | Only the last read of a stream can come to the end of the memory |

## Left out

- HttpParser.Parser.Execute: one call of at most 2^32 - 1 bytes less the header limit, because
  beyond that the 32-bit counter wraps; callbacks return 0 and never pause, the build is strict, and
  the fields after an error are not described, nor which error is reported with a header overflow.
- HttpSplit.SplitInvariance: the callback stream of the parser, with adjacent data callbacks of one
  kind joined; the wrappers in sylar/http/http_parser.cc overwrite header and URL data instead of
  appending it.
- HttpLines.BlockRun: codings other than chunked, and Connection, length or coding lines that go on
  over several lines, are left to the byte machine and to HttpRefused.ContradictionNever, where any
  bytes may stand around the two lines.
- HttpTokens.ItemsRun: words with spaces around them; after a tab, or a word that begins with an
  underscore behind a comma, nothing is heard, which HttpTokens.DeafRun says.
- HttpStart.RequestLineRun: one space before and after the target.
- HttpPipeline.UpgradeStops: a chunked message that asks for an upgrade; HttpMessage.UpgradeBodyRun
  has those with a length.
- UrlSplit.ParseUrl: URLs below 2^16 bytes; from there on the 16-bit offsets wrap.
- QueryParams.ParametersRecovered: cookie and body parameters, which the same splitter fills.
- Workers.Quiescence: base Scheduler only; after stop only running tasks create tasks, a fiber has
  one outstanding wake-up at a time and does not end while it has one, and yield is one step.
- IoStop.IoQuiescence: one worker; with more, the separate reads leave further races.
- Wakeup.NoLostWakeup: one idle worker, delays below 2^31 ms and a clock that does not go back;
  wake-ups for newly queued tasks are not claimed, since a task pushed between the queue scan and
  the idle count gets no tickle.
- IoEvents.IOManager.AddEvent: lookup and growth of the context table are one step; concurrent
  growth can shrink it.
- HookedIo.OneWakePerYield: callbacks, deliveries and the steps of do_io are atomic; two calls do
  not wait for the same event of one descriptor at a time, which addEvent asserts; the early exits
  for descriptors that are not hooked are left out.
- TypedStream.WriteItem: float and double, which are copied as words.
- TypedStream.WireFormat: the byte order is a parameter; a new array of the source is big endian.
- Codec.VarintBack: the bits of a byte are added to the accumulator instead of or-ed, which is the
  same as they do not overlap; the result is cut to 32 or 64 bits at the end.
- ByteArrays.MoreBlocksLeast: the source rounds up in double arithmetic, exact below 2^53.
- Streams.ReadFixSize: lengths that fit the int that is returned.
- Fibers.Fiber.Resume: the context switch itself, stacks, and nested resumes of one worker fiber
  from another.
- Positioned reads, writeToFile and hex dumps of ByteArray: they work only near the cursor or from
  aligned positions, as the source notes.
- Sockets, epoll, threads, DNS, files, configuration, logging, daemon and environment: foreign
  calls; what the models need of them is a parameter.
- Connection pool, servlet dispatch, cookies, address masks, descriptor manager: small members that
  would add nothing hard.
