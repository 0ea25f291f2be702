# Verification of the mesh agents

This project models the core of the agents under `src/` in Dafny and proves how they behave: the incremental
HTTP/1.x parser with its URL parser, the object pool, the event loop with its epoll and select back ends, its timers,
and the two agents built on them. `dafny verify dfyconfig.toml` checks all of it.

## What is modelled

**The HTTP parser** (`src/http_parser.c`, strict mode). `HttpTypes` holds the fields of the parser and the events of its
callbacks. `HttpAutomaton` is the switch of `http_parser_execute` as a function of one byte: what happens to the
registers, which mark is set, which callback is due, and whether the byte is consumed, read again, or ends the call.
`HttpRun` folds it over a buffer: marks, callbacks that may fail or pause, early exits, the number of header bytes. This
is the meaning of one call (`Call`). `HttpParser` has the parser as a class with its fields and mark positions, inner loops, the
`memchr` search, bulk body skips and the header size counter; its method `Execute` is proved equal to `Call`, with the
shortcuts justified in `HttpSkips` and the reachable states described in `HttpInvariant`.

On top of `Call`:

* `HttpAssertions`: no assertion of the parser fails in any history.
* `HttpStream` and `HttpSegments`: the parser as a function of the byte stream alone, and the theorem that cutting the
  stream into calls and pausing in callbacks changes nothing once neighbouring data callbacks of a kind are joined.
  `HttpCuts` has the exact condition under which that holds, and the form of it that a caller can test.
* `HttpSizes` and `HttpDriver`: how many header bytes a stream makes the parser count, and programs that feed a stream to the
  parser object; when the headers have room, the object does what the specification says.
* `HttpGrammar`: the order of the callbacks, body bytes that add up to the announced length, and silence after the end.
* `HttpNames`, `HttpMethods`, `HttpNumbers`, `HttpFraming`: the recognizers equal string tests, the numbers are exact.
* `HttpConnection`: what the value of a Connection header does.
* `HttpHeaders`, `HttpStart`, `HttpPrinter`: printed requests and replies of any version (section 4.1 and section 3.3.3 of
  RFC 7230) are read back exactly, under every segmentation, with what becomes of the connection behind them. `HttpReply` has
  the replies of the provider agent among them, and `HttpLimits` states it of `Execute`, with the size limit.
* `HttpHandover`: where the parser hands the connection over: to another protocol, at the end of the stream, from a parser
  for either kind of message to one of them, and to the application that answers its callbacks.
* `HttpSpellings` and `HttpRejects`: other spellings that are accepted and what they mean, and the bytes that are refused, in
  every state exactly these.

**URLs** (`http_parser_parse_url`, `http_parse_host`): `Url` has the two loops as methods over slices and proves that the
components of every accepted URL lie in order; `UrlPrinter` proves that printing and parsing are inverse (components as
in section 3 of RFC 3986), with the exact exceptions, and `UrlPieces` that nothing else is accepted: exactly the texts that
such components spell, and the empty text.

**The pool** (`src/pool.c`): `Pool` has the two linked stacks of buckets on the heap and the counters; `PoolView` is the pool as
a value (elements kept, elements in use), with the properties of whole runs. The methods are proved against it.

**The event loop** (`src/ae.c`, `src/opt/ae_epoll.c`, `src/opt/ae_select.c`): `EventMasks` and `EventLoop` have the table of file
events, what the kernel has been told, and the dispatch, with handlers that change registrations while they run.
`Timers` has the doubly linked list of timers and the pass over it while callbacks add and delete timers; `TimerPass` is that
pass on values, with what becomes of every timer.

**The agents**: `Dubbo` and `Provider` turn form bodies into Dubbo frames and Dubbo replies into HTTP replies
(`src/provider.c`), and `ProviderRequests` follows a form from the text of the request to the frame; `Balancer` and `Consumer` choose endpoints, lease upstream connections and forward bytes
(`src/consumer.c`), and `ConsumerRuns` has two runs in which bytes do not reach the consumer they are for. `Consumer` uses `PoolView`
and `Balancer`; `Provider` uses `HttpReply`, so that its reply is followed through the parser. Reads, writes and accepts are
parameters: any result the system may give. `Common` has what several modules share.

## Facts of the code that shape the claims

* The `memchr` search for the end of a header value of no interest passes over bytes that the check on single bytes would reject
  (`src/http_parser.c:1460-1491`). Whether such a byte is an error depends on where the stream is cut exactly if it comes directly
  behind a byte read in a value of no interest (`HttpCuts.SegmentationExactly`, with a request that shows it in
  `HttpCuts.HiddenByteDependsOnTheCut`).
* `nread` counts one byte too many when a buffer ends inside a header name or value, or when a pause leaves a byte that is then
  read again, and a pause in the callback at the CR of a value loses its bytes. `Execute` states both: `nread` exceeds the header bytes
  by at most one for each such call, and falls short of them only after a pause at the end of a value. What is claimed for heads of
  more than 40 KiB therefore depends on the number of calls (`HttpDriver.Roomy`); with callbacks that do not pause, headers of more
  than 80 KiB are never read to their end. The trailers of a chunked body do not reset the count.
* On an error the data behind a mark is never delivered.
* Only 128 entries of `unhex` are written; bytes from 128 on therefore read as the digit 0, and the model does the same. Chunk sizes
  are claimed for hexadecimal digits.
* The conservative tests accept a Content-Length up to 18446744073709551609 and a chunk size up to 2^64 - 17, and nothing larger.
* A response parser announces a message for each leading CR and LF; the order of callbacks is stated for request parsers.
* In a Connection value, a comma behind the mere beginning of "close", "keep-alive" or "upgrade", or behind nothing, does not end the item,
  so that the next one is not seen: `c,close` leaves the connection open (`HttpConnection.HiddenClose`). An item behind a comma that does not begin with
  a token (a tab, for one) hides all that follow.
* The connection stays open by default only if both numbers of the version are greater than 0: `HTTP/1.1` does, and `HTTP/2.0`
  counts as old. A CONNECT request ends with its head, even where it announces a body.
* A header value that is continued on the next line is no longer what its last line was recognized as: a "close" at the end of a
  line that is continued does not close the connection (`HttpSpellings.ThroughFold`).
* A URL with a fragment directly behind its authority (`http://host#top`) is rejected. An empty user information or query may have
  its mark, a fragment may have several, and an authority after CONNECT may be followed by `?` and by `#` behind that
  (`UrlPieces.GoodMarks`).
* Registering an empty mask for an unregistered descriptor leaves the kernel, or `maxfd`, in disagreement with the table;
  `CreateFileEvent` says exactly when.
* The test for the encoded `Ljava/lang/String;` type compares only as many characters as the argument type has, so every beginning of it,
  the empty one included, is mapped.
* The consumer agent ends a lease when it has written what it has read of a reply, and resets the buffer of one direction when it
  reads in the other. A reply that arrives in two reads can therefore reach two consumers (`ConsumerRuns.RestToTheNext`), and a consumer
  that does not wait for its reply can lose it (`ConsumerRuns.ReplyDropped`). A consumer that closes during a request leaves its upstream
  connection outside every pool (`Consumer.Agent.Close`).
* When the init callback fails while a pool with a limit is filled, `PoolInit` cleans the element up and leaves it in its bucket, and
  `PoolFree` cleans it up again (`Pool.Pool.Init`).
* While a reply is written, its last byte is overwritten by NUL; bytes that arrive after a blocked write follow that NUL.
* A Dubbo reply is armed for sending only if it has more than 16 bytes.

## Model

| member | source | states |
|---|---|---|
| HttpParser.Parser.constructor | src/http_parser.c:2100-2108 | A new parser is in the start state of its type, without an error, with an empty trace and nothing counted. |
| HttpParser.Parser.Pause | src/http_parser.c:2416-2428 | On a parser without an error, sets or clears the pause and changes nothing else; the invariant is kept. |
| HttpParser.Parser.Execute | src/http_parser.c:632-2046 | With any callbacks and any buffer: the byte count returned, the callbacks made, the error and (unless there is one) all registers are those of the byte-by-byte specification `Call`, although the method works with mark positions, inner loops, `memchr` and bulk skips. The limit: a header overflow is reported only if the bytes of one header (counted in header states since the last reset, those of earlier calls included, no body byte among them) and one byte for each cut exceed it, and the callbacks then made are a beginning of those of `Call`; and a call that ends without an error has had no header larger than the limit, unless a pause at the end of a value lost some of its bytes. A cut is a call that was paused or ended inside a header name or value. Header bytes, cuts and lossy pauses are exactly those the specification counts, and `nread` lies between the first (unless some were lost) and the sum of the first two. |
| HttpParser.Parser.Count | src/http_parser.c:150-157 | `COUNT_HEADER_SIZE`: the 32-bit sum does not wrap; it fails exactly past the limit, and then the header bytes counted so far and the cuts exceed the limit. |
| HttpParser.Parser.CountByte | src/http_parser.c:701-706 | Before a byte is looked at in a header state it is counted; a chunk size is always begun with `nread == 1`, as the assertion at line 1891 wants. |
| HttpParser.Parser.ReadName | src/http_parser.c:1230-1341 | The inner loop over a header name stops at the first byte that is not a token, with the recognizer folded over exactly the bytes read. |
| HttpParser.Parser.MemChr | src/http_parser.c:1474-1475 | The first occurrence of a byte within a bounded stretch, or none. |
| HttpParser.Parser.LineEnd | src/http_parser.c:1468-1491 | The end of a value of no interest is the first CR or LF; if neither is among the first 80 KiB the buffer's end is taken. |
| HttpParser.Parser.ReadValue | src/http_parser.c:1439-1637 | The inner loop over a header value: the recognizer is folded over every byte that was looked at, the search takes over at the first byte of no interest, and a byte that fails stops the loop with the error that byte has in the specification. |
| HttpParser.Parser.PassName | src/http_parser.c:1230-1357 | A whole stretch of a header name, its callback and its count together equal single steps of the specification; a name cut by the end of the buffer is counted one byte too high. |
| HttpParser.Parser.PassValue | src/http_parser.c:1439-1642 | The same for a header value, for all ways in which the inner loop ends. |
| HttpParser.Parser.PassCr | src/http_parser.c:1445-1449 | The end of a value at a CR: the callback comes before the count, so a pause there loses the count, and nothing else is lost. |
| HttpParser.Parser.PassLf | src/http_parser.c:1452-1458 | The end of a value at a LF: the count comes before the callback, and the byte is read again. |
| HttpParser.Parser.PassBody | src/http_parser.c:1837-1872 | A body of known length: the bulk skip, the mark and the callback with the last byte equal single steps; the length is neither 0 nor the sentinel. |
| HttpParser.Parser.PassChunk | src/http_parser.c:1970-1991 | The data of a chunk: the bulk skip equals single steps; the length is neither 0 nor the sentinel. |
| HttpParser.Parser.PassEof | src/http_parser.c:1874-1878 | A body that lasts until the connection is closed takes the rest of the buffer. |
| HttpParser.Parser.Perform | src/http_parser.c:75-139 | Marks, callback macros and the way the loop goes on: the object and the mark positions follow one step of the specification. |
| HttpParser.Parser.EmitLeft | src/http_parser.c:2026-2043 | At the end of a buffer at most one mark is set, and its data is delivered. |
| HttpParser.Parser.Eof | src/http_parser.c:653-673 | An empty buffer: message_complete for a body that lasts until the end, success between messages, an error anywhere else. |
| HttpParser.AtMostOneMark | src/http_parser.c:2026-2030 | Marks that stand for one span of data are never two at once, and they delimit exactly that span. |
| HttpParser.RunNeverOverflows | src/http_parser.c:150-157 | The byte automaton itself never reports a header overflow. |
| HttpParser.HeadsAfter | src/http_parser.c:701-706 | How one pass through the switch changes the count of header bytes, for a byte that is consumed, read again, or left to the next call. |
| HttpSkips.NameSkip | src/http_parser.c:1230-1341 | Reading a stretch of a header name at once equals reading it byte by byte. |
| HttpSkips.SearchSkip | src/http_parser.c:1468-1491 | Skipping to the line end of a value equals reading its bytes one by one without looking at them. |
| HttpSkips.ValueSearch | src/http_parser.c:1439-1637 | The value loop as a whole: watched up to one byte, searched from there to the line end. |
| HttpSkips.ValueFail | src/http_parser.c:1460-1463 | The value loop stops at a failing byte exactly as the single steps do. |
| HttpSkips.BodySkip | src/http_parser.c:1837-1871 | Skipping all but the last bytes of a body or a chunk equals single steps. |
| HttpSkips.BodyFinish | src/http_parser.c:1854-1868 | The rest of a body of known length: one callback with all of it, and the last byte is read again. |
| HttpSkips.ChunkSkip | src/http_parser.c:1970-1991 | A stretch of a chunk, its last byte included. |
| HttpSkips.EofSkip | src/http_parser.c:1874-1878 | The rest of a buffer in a body that lasts until the connection is closed. |
| HttpInvariant.TransitionOk | src/http_parser.c:706-2017 | Every branch of the switch keeps the register invariant and uses the marks in order: a notification is made only when no mark is set, and a data callback only for the mark that is. |
| HttpInvariant.RunOk | src/http_parser.c:675-2046 | The loop over a buffer keeps the invariant; where it stops without an error nothing is pending. |
| HttpInvariant.CallOk | src/http_parser.c:632-2046 | Every call keeps the invariant, whatever the callbacks do. |
| HttpInvariant.ShiftedExact | src/http_parser.c:1518-1529 | A digit that passes the conservative limit is added without wrapping, and the sentinel is never reached. |
| HttpAssertions.AssertionsNeverFail | src/http_parser.c:1337-2002 | Over any sequence of calls and pauses with any callbacks, no assertion that depends on the history fails: the states of the recognizer, the body length, the chunked flag in the chunk states, no error before a callback, and no second mark. |
| HttpAssertions.NoneFailsInRun | src/http_parser.c:1337-2002 | The same for one call, byte by byte, from any reachable state. |
| HttpAutomaton.RereadLowersRank | src/http_parser.c:706-2017 | `goto reexecute` lowers a rank of the state, so that every call ends. |
| HttpAutomaton.StartsChunk | src/http_parser.c:1791-1835 | A chunk size is only ever begun when the header size has just been reset. |
| HttpStream.RunSim | src/http_parser.c:675-2046 | A call over any slice follows the stream without buffers, marks and pauses, to wherever it stops, unless the stream fails at a byte that the call conceals. |
| HttpStream.DoSim | src/http_parser.c:75-139 | One pass of a call does to the joined callbacks what the same byte does in the stream, also when the callback pauses. |
| HttpSegments.CallSim | src/http_parser.c:632-2046 | One call with a piece of a stream leaves the parser on the course of the stream. |
| HttpSegments.DriveFollowsStream | src/http_parser.c:632-2046 | Segmentation invariance and pause transparency: for every reachable parser, every way of cutting the stream into non-empty calls, and callbacks that pause anywhere and differ from call to call, the parser is on the course of the stream read as a whole: same registers, same callbacks once neighbouring data is joined, same error at the same byte. Excluded are streams that end in a change of protocol, and, unless each call has one byte, streams that fail at an illegal byte of a header value directly behind a byte read in a value of no interest. |
| HttpSegments.CallResumes | src/http_parser.c:632-2046 | Every call on a parser of any type, with any callbacks, leaves an error or a parser to which the segmentation theorem applies. |
| HttpSegments.ReachableIsResumable | src/http_parser.c:632-2046 | So does every history of calls and pauses from a new parser of any type. |
| HttpSegments.JoiningLosesNothing | src/http_parser.c:75-139 | Joining neighbouring data callbacks of a kind, as the statements about segmentation do, keeps all data of each kind in order and the order of all other callbacks and kinds, and leaves no two neighbours of a kind. |
| HttpSegments.AnyTwoFeedsAgree | src/http_parser.c:632-2046 | Two ways of feeding a stream to its end leave equal registers and equal joined callbacks. |
| HttpSegments.OrdinaryFeedsReachTheEnd | src/http_parser.c:632-2046 | Callbacks that return 0 and never pause reach the end of every stream that the automaton does not stop. |
| HttpSegments.CallTakesAll | src/http_parser.c:632-2046 | Such a call takes all of its buffer. |
| HttpCuts.SegmentationExactly | src/http_parser.c:1439-1637 | The exact condition: every feed with transparent callbacks stays on the course of the stream if and only if the stream does not fail at an illegal byte of a header value directly behind a byte read in a value of no interest. |
| HttpCuts.ConcealedPasses | src/http_parser.c:1468-1491 | In one call the `memchr` search passes over such a byte, and the parser is off the course of the stream. |
| HttpCuts.CutFails | src/http_parser.c:1460-1463 | With a cut in front of it the same byte is an error. |
| HttpCuts.LegalStreams | src/http_parser.c:1460-1463 | The form a caller can test: in lenient mode, or if every byte is one that the check on single bytes accepts, the stream may be cut and paused anywhere and does not fail at a value byte. |
| HttpCuts.LegalNeverFails | src/http_parser.c:706-2017 | If every byte that is read in a header value is legal there, the stream does not fail in a value with that error. |
| HttpCuts.HiddenByteDependsOnTheCut | src/http_parser.c:1460-1491 | The condition is needed: a new request parser accepts the text "GET / HTTP/1.1" CRLF "X: va" and a byte 1 in one call, and rejects it when byte 1 comes in a call of its own. |
| HttpSizes.MeasureSplit | src/http_parser.c:138-157 | The header size of a text and another behind it is that of the first, then that of the second counted on from there. |
| HttpSizes.CallMeasure | src/http_parser.c:138-157 | The header bytes of a call stay below the largest header of the stream, and so does what the call leaves of the stream, wherever it ends or is paused. |
| HttpSizes.CallAccounted | src/http_parser.c:138-157 | With callbacks that do not pause a call has counted the largest header of the stream, or it is still to come. |
| HttpDriver.FewCuts | src/http_parser.c:1343-1348 | With callbacks that do not pause, every cut has cost a header byte: there are never more cuts than header bytes counted. |
| HttpDriver.FeedAll | src/provider.c:119-146 | A program that feeds a stream to the parser object piece by piece ends as the specification of the whole feed says, unless a header is found to be too large. None is if the largest header of the stream has room: it is smaller than 80 KiB by one byte for each call, or, with callbacks that do not pause, it has at most half of 80 KiB; then the number of calls does not matter. And with callbacks that do not pause no stream with a header of more than 80 KiB is read to its end. |
| HttpGrammar.CallbacksFollowGrammar | src/http_parser.c:706-2017 | Over its whole life the callbacks of a request parser are a beginning of (begin url+ (field+ value+)* headers_complete, then body data of exactly the announced length or whole chunks of exactly their sizes with trailers, complete)*, for any calls and any callbacks that pause at will. |
| HttpGrammar.CallOrderly | src/http_parser.c:632-2046 | Every single call keeps that, together with what the state knows of the place in the grammar. |
| HttpGrammar.TransitionKeeps | src/http_parser.c:706-2017 | Every branch of the switch moves the state and the place in the grammar together. |
| HttpGrammar.CompleteThenNewOrDead | src/http_parser.c:446-458 | Behind message_complete the parser is ready for a new message or dead; it is ready exactly if the connection may stay open (no Connection header asks for its end from version 1.1 on, one asks for keep-alive before) and the end of the message was known without the end of the stream (a request, a chunked body, a length, a status without a body, or the application's word). |
| HttpGrammar.NothingAfterTheEnd | src/http_parser.c:648-717 | After a message that ends the connection, or after any error, no callback is ever made again; only CR and LF are still accepted. |
| HttpFeed.RunSplit | src/http_parser.c:675-2046 | Reading a text and then another equals reading both at once. |
| HttpNames.RecognizesExactly | src/http_parser.c:1204-1340 | At the colon the recognizer is in a special state exactly if the lower-cased name is connection, proxy-connection, content-length, transfer-encoding or upgrade. |
| HttpNames.ThroughName | src/http_parser.c:1188-1357 | Any token is read as one header name. |
| HttpMethods.MethodAcceptedExactly | src/http_parser.c:918-1012 | A word in front of a space is accepted as a method exactly if it is one of the 34 known methods, listed by name, and is then that method. |
| HttpMethods.GuessIsExact | src/http_parser.c:961-1012 | The method in mind behind a word is complete exactly for the known methods. |
| HttpMethods.GuessStarts | src/http_parser.c:961-1012 | The bytes read so far are always the beginning of the method in mind. |
| HttpNumbers.LengthExact | src/http_parser.c:1398-1531 | A Content-Length value is read as the number its digits denote, or rejected exactly if it exceeds 18446744073709551609; the sentinel is never reached. |
| HttpNumbers.ChunkSizeExact | src/http_parser.c:1889-1940 | A chunk size is read as the number its hexadecimal digits denote, or rejected exactly if it exceeds 2^64 - 17. |
| HttpNumbers.ToDecimal | src/provider.c:403-406 | Printing a number in decimal and reading it gives the number. |
| HttpHeaders.ThroughHeader | src/http_parser.c:1180-1720 | A header with a legal name and value, with any spaces and tabs in front of the value, that says nothing about the body is delivered as its name and its value and changes nothing but the four flags about the connection, each exactly as its name and its items ask. |
| HttpHeaders.ThroughHeaders | src/http_parser.c:1180-1720 | The same for any number of headers. |
| HttpHeaders.WithHeadersMeans | src/http_parser.c:1655-1681 | Behind any headers, in whichever order, the keep-alive, close and connection-upgrade flags are set exactly if a Connection or Proxy-Connection header has such an item, and the upgrade flag exactly if an Upgrade header has a value. |
| HttpConnection.KnowsNext | src/http_parser.c:1550-1630 | At every byte of a Connection value the recognizer knows how far the item at hand fits one of its words, and each of the three flags has been set exactly if a finished item is its word (any case, spaces around it). |
| HttpConnection.AsksExactly | src/http_parser.c:1550-1630 | For each of "close", "keep-alive" and "upgrade": a Connection value on one line has its effect only if one of the parts between its commas is the word; if each comma ends an item (no empty part, no mere beginning of one of the words, and tokens to begin with), exactly if one is. |
| HttpConnection.TidyExactly | src/http_parser.c:1550-1630 | The items the parser sees are the parts between the commas if and only if each comma ends an item. |
| HttpConnection.BeginningHides | src/http_parser.c:1580-1627 | Behind a mere beginning of one of the words the comma is swallowed: for every such beginning `b`, every `t` and each of the words, the value `b,t` never asks for it. |
| HttpConnection.HiddenClose | src/http_parser.c:1580-1627 | The value `c,close` leaves the connection open. |
| HttpFraming.ChunkedExactly | src/http_parser.c:1389-1396 | A Transfer-Encoding value on one line sets the chunked flag exactly if it is "chunked" in any case with spaces behind it. |
| HttpFraming.ThroughEncoding | src/http_parser.c:1550-1560 | After any beginning of such a value the recognizer knows whether it still fits. |
| HttpFraming.ThroughBody | src/http_parser.c:1837-1887 | A body of the announced length is delivered whole, followed by message_complete; if another protocol follows, the parser stops there. |
| HttpFraming.ThroughChunk | src/http_parser.c:1889-2007 | A printed chunk, with any extension behind its size, is delivered as its size, its data and its end. |
| HttpPrinter.ThroughTrailer | src/http_parser.c:1722-1732 | The last chunk, with any extension, any headers behind it and the empty line end the message; the headers are delivered and their flags count. |
| HttpStart.ThroughRequestLine | src/http_parser.c:918-1178 | A printed request line is read as its method, its target (for CONNECT an authority) and its version, any two digits. |
| HttpStart.ThroughStatusLine | src/http_parser.c:756-916 | A printed status line is read as its version, its status of at most 999, and its reason phrase, which may be empty. |
| HttpPrinter.ThroughMessage | src/http_parser.c:756-2007 | One printed request or reply of any version, from a parser that waits for one, gives exactly its callbacks. Behind it the parser waits for the next if the connection stays open (from version 1.1 on unless a header asks for its end, before that only if a header asks for keep-alive), reads a body up to the end of the stream if the reply is one that announces none and may have one, and is dead otherwise. It stops there exactly if another protocol follows: behind CONNECT, and where an Upgrade header names a protocol and a Connection header asks for the change, in a reply with status 101. |
| HttpPrinter.ThroughMessages | src/http_parser.c:756-2007 | The same for any number of requests, or of replies, on one connection, of which only the last may close it and none changes the protocol. |
| HttpPrinter.RejectedBehindClosing | src/http_parser.c:713-723 | Behind a message that does not leave the connection open, of version 1.0 without keep-alive for one, the next is rejected at its first byte, with exactly the callbacks of the messages before: that only the last may do so is needed. |
| HttpPrinter.ParserInvertsPrinter | src/http_parser.c:756-2007 | Parser inverts printer, on the specification: any pipelined requests, or replies, of any version, of which only the last may close the connection and none changes the protocol, each without a body, with a Content-Length body, with its body in any division into non-empty chunks with extensions and trailers, or with a body up to the end of the stream, cut into calls in any way and paused anywhere, never fail, and at the end the joined callbacks are exactly methods, targets, versions, statuses, reasons, header pairs, body bytes, and message_complete of each whose end is announced; callbacks that do not pause get there. |
| HttpHandover.HandsOver | src/http_parser.c:1745-1811 | Change of protocol: the bytes before the last of the message may come in any pieces and pauses; the call that is given the last byte, with any bytes of the other protocol behind it, returns the position behind the message with `upgrade` set, and the callbacks are exactly those of the messages. |
| HttpHandover.StopsBehind | src/http_parser.c:1791-1811 | The automaton stops behind such a message whatever follows; a CONNECT request ends with its head, any other with its body. |
| HttpHandover.EndOfStream | src/http_parser.c:652-672 | Behind whole messages the end of the stream completes a body that lasts so long, and is otherwise no news; it is never an error there. |
| HttpHandover.EofExactly | src/http_parser.c:648-673 | The call for the end of the stream, for every parser: with message_complete for a body that lasts so long, without effect between messages and on a parser that is paused or has failed, and otherwise an error for which it returns 1. |
| HttpHandover.EitherInvertsPrinter | src/http_parser.c:719-754 | A parser for requests and replies that has read nothing yet inverts the printer of requests and that of replies. |
| HttpHandover.DecidesByTheSecondByte | src/http_parser.c:719-754 | Such a parser reads every text as a parser for requests, or for replies, would, decided by its first two bytes. |
| HttpHandover.AnswerToHeaders | src/http_parser.c:1762-1789 | The application's answer when the headers are complete: 0 goes on, 1 means no body, 2 also means another protocol, and any other value is an error at that byte. |
| HttpHandover.NoBodyFollows | src/http_parser.c:1791-1816 | Where no body follows by the application's word, the message is complete with its head whatever it announces, and the call returns there if another protocol follows. |
| HttpHandover.AnswerToData | src/http_parser.c:101-129 | A data callback is given the bytes behind its mark, and a value other than 0 is the error of exactly that callback. |
| HttpHandover.AnswerToNote | src/http_parser.c:75-92 | The same for the callbacks without data. |
| HttpSpellings.BothFramingsRefused | src/http_parser.c:1735-1740 | A message that announces its body by a length and in chunks, in either order and behind any headers, is refused at the last byte of its head, before the application hears that the headers are complete. |
| HttpSpellings.SecondLengthRefused | src/http_parser.c:1398-1410 | A second Content-Length header, the same or another, is refused at its first digit. |
| HttpSpellings.LfEndsLines | src/http_parser.c:1151-1167 | A line feed alone ends a request line, a status line and a header line like a carriage return and a line feed. |
| HttpSpellings.LfEndsHeads | src/http_parser.c:1180-1204 | The same for the empty line at the end of a head and of a chunked body. |
| HttpSpellings.EmptyLinesIgnored | src/http_parser.c:918-922 | Empty lines in front of a request, or behind the last one, mean nothing. |
| HttpSpellings.EmptyLineBeforeReply | src/http_parser.c:756-777 | A CR or LF in front of a reply announces a message, and the parser still waits for the reply. |
| HttpSpellings.SpacesIgnored | src/http_parser.c:1014-1018 | More than one space in front of the target or the version means nothing. |
| HttpSpellings.WithoutVersion | src/http_parser.c:1063-1076 | A request line that ends behind the target stands for version 0.9. |
| HttpSpellings.WithoutReason | src/http_parser.c:856-896 | A status line may end behind the status, as if an empty reason followed. |
| HttpSpellings.SpacesBehindLength | src/http_parser.c:1503-1538 | Spaces behind a Content-Length belong to its value but not to the number, and a digit behind them is refused. |
| HttpSpellings.ThroughFold | src/http_parser.c:1655-1662 | A header line that begins with a space or a tab continues the value, and that byte belongs to it; what the value so far has been recognized as is forgotten. |
| HttpSpellings.EmptyFold | src/http_parser.c:1691-1696 | A header line without a value is continued in the same way, and the value may still come. |
| HttpRejects.BeforeMessages | src/http_parser.c:709-959 | Between messages: a dead parser refuses exactly what is not CR or LF, a parser for replies what does not begin one, a parser for requests exactly the bytes with which no method begins. |
| HttpRejects.InProtocol | src/http_parser.c:1087-1119 | In the protocol name of a request, and (`InReplyProtocol`) of a reply, exactly the one letter that is due is accepted. |
| HttpRejects.InVersionNumbers | src/http_parser.c:799-828 | A version number is exactly a digit. |
| HttpRejects.BehindVersions | src/http_parser.c:1151-1178 | Behind the version exactly a space, in a reply, or a line end, in a request, is accepted. |
| HttpRejects.InStatusLine | src/http_parser.c:841-884 | A status is refused at the first byte that is no digit, space or line end, and at the digit that makes it more than 999. |
| HttpRejects.InTarget | src/http_parser.c:1014-1085 | Within a target, for every state of the URL automaton, exactly the listed bytes are accepted, and a space or a line end exactly where a target may end. |
| HttpRejects.InNames | src/http_parser.c:1180-1357 | In a header name exactly the characters of a token are accepted (`TokenBytes` lists them as section 3.2.6 of RFC 7230 does), and the colon or a line end. |
| HttpRejects.InValues | src/http_parser.c:1439-1637 | In a header value exactly these are refused: control characters unless the parser is lenient, and in a length whatever is no digit or makes it too large. |
| HttpRejects.AroundValues | src/http_parser.c:1359-1437 | In front of a value nothing is refused but a length that does not begin with a digit, and a second length; behind its CR everything but LF. |
| HttpRejects.AtEndOfHead | src/http_parser.c:1722-1795 | At the end of the head everything but LF is refused, and LF exactly if a length and chunks are both announced. |
| HttpRejects.InSizeLine | src/http_parser.c:1889-1968 | A chunk size is refused at the first byte that is no hexadecimal digit (or byte from 128 on), CR, semicolon or space, and at the digit that makes it too large. |
| HttpRejects.InBodies | src/http_parser.c:1970-2013 | Within a body no byte is refused; behind the data of a chunk exactly CR and LF are accepted. |
| HttpLimits.ReadMessages | src/http_parser.c:632-2046 | The same of `Execute` itself, for every segmentation in which the longest head, plus what was counted before or the longest trailer, has room; bodies may have any size. |
| HttpLimits.ReadWithNewParser | src/http_parser.c:632-2046 | A new parser whose callbacks do not pause reads messages with heads and trailers of together up to 40959 bytes and bodies of any size in any segmentation. |
| HttpLimits.CountsMessages | src/http_parser.c:138-157 | Pipelined messages never count more header bytes at once than the longest head, or size line of a chunk, and the longest trailer of a chunked body, which stays in the count. |
| HttpLimits.EndlessHeader | src/http_parser.c:138-157 | The beginning of a request or a reply with a header value of more than 80 KiB is always refused, however small the pieces in which it comes. |
| HttpReply.ReplyPrinted | src/provider.c:415-420 | The text of a reply of the provider agent is a printed message: status 200, the length without a space behind the colon, and the data. |
| HttpReply.ThroughReply | src/http_parser.c:756-1887 | Such a reply is read as its status, its length and its body, and the parser waits for the next. |
| HttpReply.ReplyDelivered | src/http_parser.c:756-1887 | However such a reply is cut into reads and wherever callbacks pause, no call fails, and at its end a response parser has delivered its body and exactly one complete message; callbacks that do not pause get there. |
| HttpLimits.ReadReply | src/http_parser.c:632-2046 | The same of `Execute` itself; a reply counts at most 64 header bytes. |
| Url.ParseUrl | src/http_parser.c:2297-2414 | The method over slices and states answers what the functional `Parse` answers, for every buffer of at most 65535 bytes. |
| Url.ParseHost | src/http_parser.c:2210-2290 | The authority loop finds the same user information, host and port as the fold, and fails exactly when the fold ends in a state in which an authority cannot end. |
| Url.CheckUrl | src/http_parser.c:2368-2411 | CONNECT wants exactly host and port, and the port is the number its digits denote or is rejected beyond 65535. |
| Url.ComponentsInOrder | src/http_parser.c:2297-2414 | Every accepted URL has non-empty components in bounds, in the order schema, user information, host, port, path, query, fragment without overlap, and the exact value of its port; after CONNECT there is a host and a port and nothing else. |
| Url.UrlShapes | src/http_parser.c:484-630 | After every byte the components found so far follow each other with exactly their delimiters between them. |
| Url.HostShapes | src/http_parser.c:2128-2268 | The same within the authority, the brackets of an IPv6 address and its zone included. |
| UrlPrinter.ParserInvertsPrinter | src/http_parser.c:2297-2414 | Printing components (absolute, origin or CONNECT form; schemes of letters; hosts of letters, digits, dots and hyphens, or IPv6 addresses with zone; user information, port, query, fragment) and parsing them gives the same components and port. It is rejected exactly if a fragment stands directly behind an authority, or if an authority after CONNECT has user information or no port. |
| UrlPrinter.AuthorityParsed | src/http_parser.c:2210-2268 | A printed authority is read as its user information, host and port. |
| UrlPieces.AcceptedExactly | src/http_parser.c:484-630 | The URL parser accepts exactly what may be written: a text is accepted if and only if it is a target of legal components (scheme, user information, host or bracketed address with zone, port up to 65535, path, query, fragment) with the marks between them, after CONNECT an authority with a port and without user information; or if it is empty and not for CONNECT. An empty component may have its mark, and a fragment several. |
| UrlPieces.ComponentBytes | src/http_parser.c:407-427 | The characters legal in each component, listed as section 2.2 and section 2.3 of RFC 3986 do. |
| UrlPieces.AcceptedIsSpelled | src/http_parser.c:2297-2414 | From any accepted text its components and marks can be read off: the text is their spelling, and every component found is where it is in that spelling. |
| UrlPieces.SpelledIsAccepted | src/http_parser.c:2297-2414 | Every such spelling is accepted, with its components exactly where they are and the value of its port. |
| PoolView.GetOk | src/pool.c:291-344 | A request is never granted an element in use; a pool with a limit refuses exactly when all its elements are in use, unless a new one cannot be made. |
| PoolView.ReturnOk | src/pool.c:346-379 | A pool with a limit always has a bucket for an element that comes back and never frees it. |
| PoolView.RunOk | src/pool.c:291-379 | Over any run of requests and returns the pool stays in order and, with a limit, no element is lost. |
| PoolView.InUseUntilGivenBack | src/pool.c:291-379 | An element in use stays in use until it is given back. |
| PoolView.HandedOutOnce | src/pool.c:291-379 | If an element is granted twice in a run, it came back in between. |
| PoolView.LastInFirstOut | src/pool.c:291-379 | The element that came back last is the first to be handed out again. |
| Pool.Pool.Init | src/pool.c:75-224 | A pool is refused exactly for the three bad combinations of sizes and callbacks, and given up exactly if there is no memory or one of the first elements cannot be made or initialized; then everything made so far has been freed, each element and bucket once, and every element cleaned up once, except that the element whose init callback has failed in a pool with a limit is cleaned up twice. Otherwise its two stacks are disjoint lists of fresh buckets that together number the limit, with the preallocated elements, all different, on one of them. |
| Pool.Pool.Get | src/pool.c:291-344 | On the heap of buckets: takes the top element or makes a new one, exactly as the abstract pool does; both stacks stay acyclic, disjoint and counted, `allocated` is the elements kept and outstanding, and the greatest number outstanding is recorded; nothing is freed except a new element whose initialization failed. |
| Pool.Pool.Return | src/pool.c:346-379 | Puts the element on the stack, or cleans it up and frees it if there is no bucket; with a limit that branch is never reached. |
| Pool.Pool.TakeKept | src/pool.c:291-303 | The top bucket moves from one stack to the other and gives up its element. |
| Pool.Pool.Keep | src/pool.c:369-378 | The top empty bucket moves to the other stack with the element. |
| Pool.Pool.Destroy | src/pool.c:236-282 | Every element in the pool is cleaned up and freed exactly once unless the pool's own block holds it, every bucket too, and elements in use are left alone. |
| EventMasks.MaxFdUnique | src/ae.c:155-156 | At most one descriptor is the greatest registered one. |
| EventLoop.EventLoop.constructor | src/ae.c:64-94 | A new loop has no registrations, and its kernel set is empty. |
| EventLoop.EventLoop.ApiAddEvent | src/opt/ae_epoll.c:73-88 | For epoll: ADD or MOD by the old mask, with the masks merged; it fails exactly if the kernel disagrees with the table. For select (src/opt/ae_select.c:62-68): the bits of the new mask are set. |
| EventLoop.EventLoop.ApiDelEvent | src/opt/ae_epoll.c:90-106 | For epoll: MOD with what is left of the mask, or DEL. For select (src/opt/ae_select.c:70-75): the bits are cleared. |
| EventLoop.EventLoop.CreateFileEvent | src/ae.c:137-158 | Interest agreement is kept exactly if something is registered afterwards: the kernel set is the function of the table's masks and `maxfd` is the largest registered descriptor or -1; an empty mask for an unregistered descriptor breaks it, except for select below `maxfd`. |
| EventLoop.EventLoop.DeleteFileEvent | src/ae.c:160-180 | The mask loses the bits (the barrier with the writable bit), the kernel set and `maxfd` follow, and nothing else changes. |
| EventLoop.EventLoop.ResizeSetSize | src/ae.c:108-124 | Refused exactly if a registered descriptor would not fit (or the select back end's limit is reached); otherwise every registration is kept. |
| EventLoop.EventLoop.PollEpoll | src/opt/ae_epoll.c:108-131 | Each line of the kernel's report becomes one fired entry, errors and hang-ups as writable. |
| EventLoop.EventLoop.PollSelect | src/opt/ae_select.c:77-102 | Every registered descriptor is reported once with exactly the bits that are ready. |
| EventLoop.EventLoop.Poll | src/ae.c:416-416 | The back end in use: for epoll one entry for each line of the report, for select one for each registered descriptor with exactly its ready bits. |
| EventLoop.EventLoop.DispatchOne | src/ae.c:430-466 | The calls for one descriptor: each handler called is ready and, by the table as the handlers called before have left it, registered; at most two, in the order the barrier bit asks for, and one if both handlers coincide. The table before and after each call, and at the end, is the one that registrations and deletions of the handlers called so far make of the table at the start. |
| EventLoop.EventLoop.Dispatch | src/ae.c:422-470 | Every fired descriptor has its turn, in order: the calls made for it are those due by the table entry `seen` when the turn comes, which is what the handlers called before have made of the entry at the start. Nothing else is called, and the table at the end is what all handlers called have made of it. |
| EventLoop.EventLoop.ProcessEvents | src/ae.c:362-479 | Poll and dispatch together: what fired is what the kernel reported, every fired descriptor is served in the same sense, the table at the end is determined by the handlers called, and the loop stays in order. |
| EventLoop.UndisturbedCalls | src/ae.c:430-466 | When no handler touches the registration, exactly the calls that were due at the start are made, in their order. |
| EventLoop.UntouchedKept | src/ae.c:137-180 | The entry of a descriptor that none of the handlers called has touched is as it was. |
| EventLoop.ApplyExactly | src/ae.c:137-180 | A registration sets the handlers of exactly the kinds in its mask, and the data; a deletion clears exactly the kinds in its mask, and the barrier with the writable kind; nothing else changes an entry. |
| EventLoop.HistoryExactly | src/ae.c:137-180 | After any registrations and deletions the handler of each kind is that of the last registration of the kind, the data that of the last registration, and the descriptor is registered for a kind exactly by the last operation about it. |
| EventLoop.LastRegistered | src/ae.c:430-466 | Over any dispatch the handler called for a ready kind is the one given in the last registration of that kind for that descriptor, with the data of the last registration, and the last operation about that kind was a registration. |
| EventLoop.ErrorsReachWriters | src/opt/ae_epoll.c:124-125 | A descriptor with an error or a hang-up that is registered for writing only has its write handler called. |
| TimerPass.LaterIsExact | src/ae.c:198-210 | The new time is exactly that many milliseconds later, in normal form for delays that are not negative, and a timer is due exactly when it has come. |
| TimerPass.ForcedAreDue | src/ae.c:284-292 | When the clock has gone back every timer is due at once. |
| TimerPass.AllFireWhenBack | src/ae.c:284-340 | In the pass after the clock has gone back (but not to its beginning) every timer that no callback has deleted before its turn fires. |
| Timers.Cut | src/ae.c:212-232 | A doubly linked list may be cut in two anywhere: the whole is well formed exactly if both halves are and they meet. |
| Timers.TimerList.CreateTimeEvent | src/ae.c:212-232 | The new entry is at the head of the list with the next identifier, the time asked for by the clock, and its finalizer; the rest of the list is unchanged. |
| Timers.TimerList.DeleteTimeEvent | src/ae.c:234-245 | The first entry with the identifier is marked and nothing else changes; found exactly if there is one. |
| Timers.TimerList.SearchNearestTimer | src/ae.c:258-271 | The earliest entry, or none exactly for an empty list. |
| Timers.EarlierExactly | src/ae.c:255-272 | The order by which the nearest timer is found is that of time. |
| Timers.TimerList.Unlink | src/ae.c:300-307 | The entry leaves the doubly linked list, wherever it stands, and still knows its successor. |
| Timers.TimerList.ProcessTimeEvents | src/ae.c:274-346 | On the linked list, with callbacks that extend and mark it meanwhile: the timers, their times, the clock readings used and the callbacks made are exactly those of the pass (`TimerPass.Processed`); the number returned is that of the timers fired; entries that were not in the list before have been created meanwhile, with identifiers from then on; the list stays well formed. |
| Timers.TimerList.VisitNext | src/ae.c:298-343 | One step of the traversal does what `TimerPass.Visit` says, wherever the entry stands in the list; the branch for an identifier beyond the greatest at the start is never taken. |
| Timers.TimerList.Traverse | src/ae.c:294-346 | The loop is the pass over the entries that were in the list when it began. |
| TimerPass.Fate | src/ae.c:294-346 | What becomes of each timer: it is found as it was set, and marked exactly if it was marked before or an earlier callback of the pass has deleted it; marked, it is gone in the end, finalized if it asked for that; otherwise it fires exactly if it is due by the clock reading of its turn, and is in the list in the end, set for the time its callback returned, counted from a later reading, and marked exactly if it wanted no further call or its own or a later callback has deleted it. |
| TimerPass.CalledInOrder | src/ae.c:294-346 | The callbacks of a pass are for timers that were in the list when it began, each is called at most once, whether to fire or to be finalized, and in the order of the list. |
| TimerPass.CreatedStay | src/ae.c:315-320 | Every timer created during the pass is in the list in the end. |
| TimerPass.NothingElse | src/ae.c:294-346 | Nothing else comes into the list. |
| TimerPass.VisitAt | src/ae.c:294-343 | One visit: what it does to the entry itself, to every other entry and its place, to the clock and to the log. |
| TimerPass.DoAllAt | src/ae.c:212-245 | A callback adds entries at the front and marks exactly the entries whose identifiers it deletes. |
| Dubbo.Be32RoundTrip | src/provider.c:211-245 | The four bytes of a number are those of network order, the most significant first, and give the number back. |
| Dubbo.FormRoundTrip | src/provider.c:176-208 | A body k1=v1&k2=v2&k3=v3&k4=v4 without '=' in the keys and '&' in the first three values gives its four values. |
| Dubbo.FrameRoundTrip | src/provider.c:209-262 | A frame reads back as its 64-bit identifier, a length field equal to the payload length, the version, the four values, and the attachment that names the service; the type is "Ljava/lang/String;" if the argument type is a beginning of its encoded form, and the argument type itself otherwise. |
| Dubbo.RequestTranscoded | src/provider.c:167-285 | From the form body to the values a provider reads: identifier, exact length, the four values in order, the encoded String type replaced by "Ljava/lang/String;" and any other type unchanged. |
| Dubbo.TypeNameDecoded | src/provider.c:209-214 | The type name that is looked up is the percent-encoded form of the one that replaces it. |
| ProviderRequests.RequestReachesProvider | src/provider.c:111-285 | A form posted to the agent, its text cut in any way and paused anywhere, gives exactly one body in the joined callbacks, and the frame made of that body reads back as the values of the form. |
| Provider.Connection.OnHttpBody | src/provider.c:167-285 | The bytes laid into the buffer are the frame with the current identifier, which moves on by one; a second body is refused and changes nothing. |
| Provider.Connection.WriteToProvider | src/provider.c:292-327 | Over arbitrary partial writes the bytes sent are always a beginning of the frame; the event is removed with the last byte, and a blocked write changes nothing. |
| Provider.Connection.ReadFromProvider | src/provider.c:329-386 | Reads are appended behind what is held, also behind a byte that an earlier reply has overwritten; the write-back is armed exactly when the length in the frame has been reached. |
| Provider.Connection.WriteToConsumer | src/provider.c:392-443 | The text sent is composed from the bytes held, whose last is overwritten first, and, for a reply of 17 or 18 bytes, possibly from what lies behind the buffer; it is the HTTP reply for the bytes received unless an earlier attempt has overwritten a byte that is no longer the last. After a whole write the connection is ready for the next request, after a partial one nothing but that byte is changed. |
| Provider.WholeExactly | src/provider.c:340-351 | Of a reply that arrives in pieces, exactly the whole passes the test. |
| Provider.ArmedExactly | src/provider.c:329-373 | However a reply is split into reads, the write-back is armed with the last byte and not before. |
| Provider.ReplyTranscoded | src/provider.c:400-425 | For data without NUL the reply's text carries exactly the data of the frame and its length. |
| Provider.ReplyReachesReader | src/provider.c:329-425 | A Dubbo reply reaches a reader of the HTTP text, cut in any way and paused anywhere, unchanged and as one message. |
| Provider.ReplyDataIs | src/provider.c:400-425 | The data of a reply is the value that a provider wrote between its status line and its last line end. |
| Provider.ValueReachesReader | src/provider.c:329-425 | That value is the body of the one message that the reader of the HTTP text gets. |
| Balancer.LeastLoaded | src/consumer.c:159-175 | The first of the endpoints with the fewest connections in use. |
| Balancer.MinLatency | src/consumer.c:178-207 | Below 10000 requests of the first endpoint the first least loaded one. From then on the first of the fastest if fewer than 100 of its connections are in use, and otherwise the first least loaded one. |
| Balancer.LatencyExactly | src/consumer.c:178-207 | The latency of an endpoint is its time for a request in whole milliseconds, towards zero. |
| Balancer.ChoiceExactly | src/consumer.c:178-207 | There is exactly one first fastest endpoint, the choice is determined by it in both directions, and there is exactly one choice. |
| Balancer.NoOverload | src/consumer.c:178-207 | No endpoint with 100 or more connections in use is chosen while another has strictly fewer. |
| Balancer.OnlyWhenAllExhausted | src/consumer.c:110-121 | An endpoint with all its connections in use is chosen only if every endpoint is exhausted. |
| Consumer.Agent.constructor | src/consumer.c:52-64 | After discovery every connection is in its pool and every endpoint has one request on its account. |
| Consumer.Agent.Accept | src/consumer.c:70-88 | A new consumer connection comes from its pool, with empty buffers and no lease; it is refused exactly if the pool is empty. |
| Consumer.Agent.Choose | src/consumer.c:110-121 | The endpoint chosen is the one that the balancer's rule determines; no latency divides by zero, and the endpoint has no connection left only if no endpoint has one. |
| Consumer.Agent.ReadFromConsumer | src/consumer.c:90-157 | Bytes are appended and the reply buffer is reset; a connection without a lease gets the top connection of the pool of the endpoint chosen, and it is given up for want of one only if every endpoint is exhausted. The leases stay in order exactly unless the consumer closes its connection while it holds one. |
| Consumer.Agent.Close | src/consumer.c:149-156 | A consumer that closes gives its connection back to the pool; an upstream connection it leases keeps its registration and is then in no pool and with no open holder: the invariant is kept exactly if it holds none. |
| Consumer.Agent.WriteToAgent | src/consumer.c:250-289 | Exactly the next bytes of the buffer are forwarded; the clock starts and the event goes when all have been. |
| Consumer.Agent.ReadFromAgent | src/consumer.c:291-338 | Bytes are appended, the request buffer is reset, and the endpoint is charged one request and its time. |
| Consumer.Agent.WriteToConsumer | src/consumer.c:344-387 | Exactly the next bytes are forwarded; when all have been, the lease is over and its connection is back in its pool. |
| Consumer.Agent.Abort | src/consumer.c:459-482 | The consumer connection goes back to its pool; a connection it leased is lost. |
| Consumer.LentOk | src/consumer.c:108-131 | Taking a lease keeps every connection in its pool, with exactly one holder, or lost. |
| Consumer.ReturnedOk | src/consumer.c:362-376 | So does the end of a lease. |
| Consumer.AbortedOk | src/consumer.c:459-482 | So does an abort. |
| Consumer.AbortedExactly | src/consumer.c:459-482 | An abort closes the consumer connection and puts it back into its pool; an upstream connection that it leased is closed, has no events left and is in no pool, so that it is never leased again; nothing else changes. |
| Consumer.LentExactly | src/consumer.c:108-131 | A lease takes an open upstream connection out of its pool, into no other, with its events registered for the consumer connection and asking when it can be written to; nothing else changes. |
| Consumer.ReturnedExactly | src/consumer.c:362-376 | The end of a lease puts the upstream connection, open and without events, back into the pool of its endpoint; nothing else changes. |
| Consumer.InitialOk | src/consumer.c:400-423 | So it is at the start. |
| Consumer.InitialExactly | src/consumer.c:400-423 | Every endpoint starts with one request of one millisecond and 512 open connections, and the agent with 1024 consumer connections. |
| Consumer.LeasesAreExclusive | src/consumer.c:90-157 | No two consumer connections lease the same upstream connection. |
| Consumer.EveryConnectionHasAPlace | src/consumer.c:90-482 | Every upstream connection is in the pool of its endpoint, with exactly the consumer connection that leases it, or lost, and it is lost exactly when it is closed. |
| Consumer.NothingLost | src/consumer.c:90-387 | Bytes are never added, and none has been dropped, in either direction, if and only if no buffer was ever reset with bytes still to be sent; then each side has been sent a beginning of what the other sent, and all of it once the buffers are empty. |
| ConsumerRuns.ReplyDropped | src/consumer.c:90-106 | A run that drops bytes: a consumer that sends its next request before it has been sent the reply loses the reply. |
| ConsumerRuns.RestToTheNext | src/consumer.c:344-387 | A run that misdelivers bytes: the lease ends when what has been read of a reply is written, so the rest of a reply that arrives in two reads goes to the consumer that leases the connection next. |

## Left out

- HttpParser.Parser.Execute: buffers of 4 GiB less 80 KiB and more, where the 32-bit header counter could wrap in one call; after an error the registers are not compared; after a header overflow only a beginning of the callbacks is promised.
- HttpSegments.DriveFollowsStream: streams that end in a change of protocol (`HttpHandover.HandsOver` has them), the end-of-file call (`HttpHandover.EndOfStream`), and header overflow, which is the subject of `HttpDriver.FeedAll`; callbacks that return non-zero values are covered by `Execute`, with what they cause in `HttpHandover`, not by this theorem.
- HttpDriver.FeedAll: whether a header is refused that is not larger than the limit and has no room either; that depends on the cuts. Single pieces of 4 GiB less 80 KiB and more, and the streams that `HttpSegments.DriveFollowsStream` excludes.
- HttpGrammar.CallbacksFollowGrammar: request parsers whose callbacks return 0; a response parser also announces messages for blank lines, and a callback that returns 1 or 2 after the headers removes the body.
- HttpPrinter.ParserInvertsPrinter: the spellings of `HttpSpellings`, which are not printed but read as there stated; messages whose body the application's answer leaves out (`HttpHandover.NoBodyFollows`).
- HttpHandover.HandsOver: callbacks that pause in the call that reaches the end of the message.
- Url.ParseUrl: buffers beyond 65535 bytes, whose offsets do not fit the 16-bit fields.
- Pool.Pool.Init: the bucket of an element that could not be made in a pool without a limit, which is freed at once; the inclusive test for the end of the pool's block (the block is a set of elements here, so that no other element lies at its end).
- Pool.Pool.Get: 32-bit overflow of the counters of a pool without a limit.
- EventLoop.EventLoop.ProcessEvents: handlers that resize or stop the loop; time-outs of the poll; failures of `epoll_ctl` other than adding what is there or changing what is not; descriptors closed behind the loop's back.
- Timers.TimerList.ProcessTimeEvents: the memory of removed entries; which of the objects in the list a value belongs to, beyond its identifier; callbacks that start the traversal again; 64-bit overflow of identifiers. The call in `aeProcessEvents` is commented out in `src/ae.c:472-474`, so the pass is modelled on its own.
- Provider.Connection.OnHttpBody: bodies delivered in more than one piece, without the four values, with NUL bytes, or too large for the buffer; the code does not check any of these.
- Provider.Connection.WriteToConsumer: replies too large for the output buffer; after a partial write the reply is sent again from its start, as in the code.
- Provider.ArmedExactly: replies without data, which are never armed.
- Consumer.Agent.ReadFromConsumer: what happens after a consumer has closed its connection while it holds a lease (the invariant is then broken, as stated); more bytes than the buffer has room for; failures to register events.
- Consumer.Agent.WriteToConsumer: as in the code, a write that would block gives the connection up.
- Consumer.NothingLost: which reply a byte belongs to; the traffic of a consumer connection includes what it was sent of another's reply.
- Reading requests into the provider agent's buffer and handing them to the parser (`src/provider.c:111-165`): glue around `Execute`.
- Reuse of a provider connection after it has been given up, and the file descriptor numbers of both agents.
- Callbacks that change fields of the parser other than its pause state.
- The parser built without strict mode, its error strings and version, and `http_body_is_final`.
- `get_endpoint_min_latency_prob`: never called, and random.
- Sockets, name resolution, etcd, logging, options, signals and the allocator (`src/anet.c`, `src/etcd.c`, `src/log.c`, `src/main.c`, `src/zmalloc.c`): wrappers around the system.
- The evport and kqueue back ends (`src/opt/ae_evport.c`, `src/opt/ae_kqueue.c`): the first expects the table to be updated before it is called, and the second adds nothing to epoll and select.
