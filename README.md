# aqua: HTTP connection and traversal router, modelled in Dafny

This project models the two components that carry the logic of the aqua web
server, and proves properties of them.

1. `aqua/http.py` has two parts. The module functions `parse_environ` and
   `unquote_bytes` turn a request head into a CGI-style environ. The class
   `Connection` is a per-connection state machine driven by `connection_made`,
   `data_received`, the timer callback `connection_timeout` and `response`.
   - `HttpHead` models the parser. It covers:
     - the request line;
     - the split of the target on the first `?`;
     - the percent decoder, which keeps `%2F` segment boundaries;
     - the header-line loop.
     Each loop is a method proved equal to a specification function, and
     `HttpHeadProps` states what those functions guarantee.
   - `HttpProtocol` states every routine of `Connection` as a function on a
     `ConnState` value. A routine returns the new state and whether it raised.
   - `HttpConnection.Connection` is a class with the connection's fields. Each of
     its methods is proved to produce exactly the state its `HttpProtocol`
     function gives.
   - `HttpProtocolProps` proves the protocol's behaviour from those functions:
     - keep-alive against close;
     - body gating and body completion;
     - the error answers;
     - the timer;
     - the quirks of the head phase;
     - a `Progress` relation that every event keeps. Under it the transport log
       and the dispatched environs only grow, and the transport never reopens.
2. `aqua/router.py` has two parts. `_RouteItem` is a trie keyed by path segment,
   with a method table at each node. `TraversalRouter` adds template parsing, a
   reverse index from view names to templates, `url_for` and `update`, which
   mounts a sub-router.
   - `RouteTrie` models the trie as a value: `__call__` is `Resolve` and `add` is
     `Add`.
   - `Routing` models the router's routines as functions over its two fields.
   - `Router.TraversalRouter` is a class whose methods update those fields, with
     the loops of `add_route`, `url_for` and `update`. Each method is proved
     against its `Routing` function.
   - `RouteTrieProps` and `RoutingProps` prove the properties on the functions:
     - resolve after add;
     - 404 against 405;
     - rejection of conflicting routes;
     - the reverse index stays sorted and unrepeated;
     - `url_for` agrees with `route`;
     - the mount correspondence.

Shared modules:
- `Types` holds `Option` and `Result`.
- `Text` holds the Python string operations the source relies on: `find`,
  `split`, `join`, `strip`, `upper`, `int()`, `int(x, 16)` on at most two
  characters, and `<` on str and on tuples.

Three representation choices run through the model. The other differences from
the running program are under "Left out" below. The three choices:
- Bytes are strings whose characters are octets. ISO-8859-1 decoding is then the
  identity, and encoding fails on characters above 255.
- Timer durations are whole milliseconds: 200, 5000 and 3000.
- An exception is an explicit result: `Result`/`Option`, or a `raised` flag or
  outcome next to the state.

## Model

| member | source | states |
|---|---|---|
| HttpHead.ErrorStatus | aqua/http.py:266-276 | the status each failure of the head parser carries: 414, 505, 400, and 500 for a plain exception |
| HttpHead.DecodeEscape | aqua/http.py:305 | a piece after `%` decodes only when it starts with a number below 256. The decoded piece is one octet followed by the rest after two characters, and two hex digits give their octet |
| HttpHead.UnquoteBytes | aqua/http.py:299-308 | the loop that rewrites each piece after a `%` in place returns exactly the specified decoding, or fails where the source raises ValueError |
| HttpHead.DecodeEscapesFails | aqua/http.py:302-307 | one undecodable piece makes the whole decoding fail |
| HttpHead.UnquoteAtomsFails | aqua/http.py:273-276 | one undecodable path atom makes the path fail, which is answered with 400 |
| HttpHead.SplitTarget | aqua/http.py:271-272 | the path holds no `?`. It is either the whole target, or the target is path, `?`, query; and the query is empty when the target has no `?` |
| HttpHead.HeaderKey | aqua/http.py:289-291 | a header name's key has no `-` and no lower-case ASCII letter, and is CONTENT_TYPE, CONTENT_LENGTH or starts with `HTTP_`; its value is given by `HttpHeadProps.HeaderKeyValue` |
| HttpHead.DecodePathAtoms | aqua/http.py:273-277 | the loop over `%2F`-separated atoms returns the specified PATH_INFO or the 400 failure |
| HttpHead.ReadHeaderLine | aqua/http.py:283-295 | one header line read by the method is the specified step: a continuation, or a new or joined header, or a malformed line |
| HttpHead.ReadHeaders | aqua/http.py:281-296 | the header loop over the lines after the request line equals the specified fold |
| HttpHead.ParseEnviron | aqua/http.py:263-296 | `parse_environ` as a method returns exactly the specified environ or failure |
| HttpHeadProps.UnquotedPlain | aqua/http.py:299-308 | a prefix without `%` passes through decoding unchanged, failures included |
| HttpHeadProps.UnquotedLacking | aqua/http.py:299-308 | an input without `%` is returned unchanged |
| HttpHeadProps.UnquotedPercent | aqua/http.py:301-308 | after a leading `%`, every piece of the rest is decoded as an escape and the pieces are concatenated |
| HttpHeadProps.UnquotedEscape | aqua/http.py:305 | `%XY` with two hex digits becomes octet 0xXY and the rest is decoded as before |
| HttpHeadProps.UnquotedBadEscape | aqua/http.py:304-307 | `%` followed by a character that cannot start a number makes decoding fail |
| HttpHeadProps.UnquotedTrailingPercent | aqua/http.py:304-307 | a trailing `%` makes decoding fail |
| HttpHeadProps.HexChar | aqua/http.py:305 | the digit chosen for a nibble is a hex digit whose value is that nibble |
| HttpHeadProps.UnquoteQuote | aqua/http.py:299-308 | decoding inverts percent-encoding of any octet string (round trip) |
| HttpHeadProps.DecodePathLacking | aqua/http.py:273-277 | a path without `%` is its own PATH_INFO |
| HttpHeadProps.DecodePathSlash | aqua/http.py:274-277 | both `%2F` and `%2f` survive as an upper-case `%2F`, never a `/` |
| HttpHeadProps.DecodePathEscape | aqua/http.py:274-277 | any other `%XY` in a path becomes its octet |
| HttpHeadProps.UpperAscii | aqua/http.py:289 | on ASCII, `upper()` keeps the length and changes exactly the lower-case letters |
| HttpHeadProps.HeaderKeyCanonical | aqua/http.py:288-291 | names differing only in ASCII letter case, or in `-` against `_`, give the same key |
| HttpHeadProps.HeaderKeyValue | aqua/http.py:289-291 | the key of an ASCII header name is the name upper-cased with `_` for `-`, prefixed with `HTTP_` unless that spelling is CONTENT_TYPE or CONTENT_LENGTH |
| HttpHeadProps.HostKey | aqua/http.py:289-291 | the `Host` header is stored under `HTTP_HOST` |
| HttpHeadProps.HeaderFoldStops | aqua/http.py:283-284 | nothing after the first blank line is read |
| HttpHeadProps.HeaderStepLine | aqua/http.py:288-295 | a header line sets its key to the stripped value, or joins the value with `", "` |
| HttpHeadProps.HeaderFoldCons | aqua/http.py:282-295 | the loop reads one line at a time, stopping at the first blank line or failure |
| HttpHeadProps.ContinuationStep | aqua/http.py:285-286 | after a header, a continuation line appends the empty `item[0].strip()` and changes nothing |
| HttpHeadProps.HeaderContinuation | aqua/http.py:285-286 | a continuation line after a header line leaves the result as without it |
| HttpHeadProps.HeaderFoldLine | aqua/http.py:287-295 | what a header line contributes to the rest of the fold |
| HttpHeadProps.HeaderRepeated | aqua/http.py:292-293 | a repeated header is joined with `", "`, in the order the lines came |
| HttpHeadProps.HeaderStepKeys | aqua/http.py:283-295 | one line keeps every variable, changes only header keys, and fails only as a plain exception |
| HttpHeadProps.HeaderFoldKeys | aqua/http.py:281-296 | the header loop keeps every variable it starts from, touches no variable a header cannot name, adds only header keys, and fails only as a plain exception |
| HttpHeadProps.ParseEnvironErrors | aqua/http.py:265-276 | exact conditions for each failure: 414 iff the request line exceeds 2048 characters; 505 iff it has three tokens and another version; 400 iff the version is known and a path atom does not decode |
| HttpHeadProps.ParseEnvironKeys | aqua/http.py:268-296 | an accepted head has three tokens and a known version. It holds the six request-line variables as taken from the tokens and the split target, and otherwise only header keys |
| HttpHeadProps.RequestVarsNotHeaders | aqua/http.py:278-291 | no header line can overwrite a request-line variable |
| HttpProtocol.BodyChunk | aqua/http.py:211-227 | a body chunk keeps the request's variables and changes only the environ and the timer. It leaves a timer pending only if one was pending, with the same duration |
| HttpConnection.Connection.constructor | aqua/http.py:77-80 | `__init__`: a fresh connection with no transport, no environ, no timer and nothing written. Its `defaults` parameter stands for the class attribute `default_environ`; `HttpProtocol.DefaultEnviron` holds that attribute's str entries |
| HttpConnection.Connection.SetTimeout | aqua/http.py:115-120 | the new duration is stored, and a timer is pending exactly when it is positive; nothing else changes |
| HttpConnection.Connection.ConnectionMade | aqua/http.py:123-134 | the connection is marked connected, the defaults get the socket addresses, and the first-request timer is armed |
| HttpConnection.Connection.ConnectionTimeout | aqua/http.py:144-149 | with a request in progress the connection answers 408; otherwise it closes the transport |
| HttpConnection.Connection.StartRequest | aqua/http.py:186-191 | an empty buffer, no head received, a fresh copy of the defaults as environ, and the request timer armed |
| HttpConnection.Connection.RequestHandler | aqua/http.py:194-200 | the inherited handler answers `501 Not Implemented` |
| HttpConnection.Connection.ExpectContinue | aqua/http.py:203-208 | `HTTP/1.1 100 (Continue)` and a blank line are appended to the transport log, and nothing else changes |
| HttpConnection.Connection.BodyChunkReceived | aqua/http.py:211-227 | one body chunk's effect on the environ, the input buffer and the timer. A present environ stays present |
| HttpConnection.Connection.Response | aqua/http.py:230-258 | the state after `response`: the log, the transport, the environ and the timer, or the exception it raises |
| HttpConnection.Connection.ResponseOpening | aqua/http.py:237-246 | the status code, the close decision and the encoded status line, or the failure |
| HttpConnection.Connection.WriteHeaders | aqua/http.py:247-250 | the header loop's close flag and lines written, or the encoding failure |
| HttpConnection.Connection.Emit | aqua/http.py:246-258 | the writes and the close or keep-alive that follow |
| HttpConnection.Connection.Dispatch | aqua/http.py:173-176 | the environ is recorded as dispatched. The inherited handler then answers 501 at once |
| HttpConnection.Connection.ReceiveHead | aqua/http.py:157-176 | the head branch of `data_received`: the buffer is replaced by the chunk and searched for the end of the head, and a long chunk fails with 414 |
| HttpConnection.Connection.ScanHead | aqua/http.py:161-176 | with no end of head found nothing else happens. Otherwise the head is marked received and parsed |
| HttpConnection.Connection.HeadFound | aqua/http.py:163-164 | the parsed variables are merged over the environ, or the parser's failure is reported |
| HttpConnection.Connection.HeadParsed | aqua/http.py:165-176 | body gating: with CONTENT_TYPE the rest is the first body chunk and then `Expect` is handled; without it the request is complete. Then comes dispatch |
| HttpConnection.Connection.DataReceived | aqua/http.py:151-183 | the whole of `data_received`: a request is started when there is none, and an HTTP error or another exception is answered with its status or 500 |
| HttpProtocolProps.WriteHeadersRaises | aqua/http.py:247-250 | the header loop raises exactly when some header line cannot be encoded |
| HttpProtocolProps.WriteHeadersExtends | aqua/http.py:247-250 | the header loop only appends to the transport log |
| HttpProtocolProps.WriteHeadersWrites | aqua/http.py:247-250 | without a failure, every header line is written in order. The close flag ends set iff it started set or some header is `Connection: close`, so a header can turn keep-alive into close but never back |
| HttpProtocolProps.ResponseOpeningSpec | aqua/http.py:237-246 | exact conditions for a response to start. A code of 400 or more closes; otherwise the request's `Connection` header decides, and without one a protocol below `HTTP/1.1` closes |
| HttpProtocolProps.ResponseSpec | aqua/http.py:230-258 | the timer is cancelled first, and `response` raises exactly when it cannot start or a header cannot be encoded. Otherwise it writes status line, headers, blank line and body in order, then either closes or forgets the environ and arms the keep-alive timer |
| HttpProtocolProps.EmitSpec | aqua/http.py:246-258 | writing the opening, headers and body keeps the connection, buffer, flags and dispatched environs, raises exactly when a header is not Latin-1 encodable, only extends the transport log, and when it raises or closes leaves the timer alone |
| HttpProtocolProps.ProtocolOrder | aqua/http.py:243 | HTTP/1.0 sorts below HTTP/1.1, which does not sort below itself |
| HttpProtocolProps.StatusCodeOf | aqua/http.py:238 | the code of a status that starts with digits and a space is the value of those digits |
| HttpProtocolProps.FirstWord | aqua/http.py:238 | `status.split(' ')[0]` is the text before the first space |
| HttpProtocolProps.DigitsParse | aqua/http.py:238 | `int` of a run of decimal digits is its decimal value |
| HttpProtocolProps.DecimalStringParses | aqua/http.py:130 | `int(str(port))` is the port: the `SERVER_PORT` that `connection_made` writes reads back as its number |
| HttpProtocolProps.CodeValues | aqua/http.py:238 | proof helper for the `*Code` lemmas: the numeric values of the literal three-digit codes the connection itself sends |
| HttpProtocolProps.TimeoutCode | aqua/http.py:147 | the timeout answer has code 408 |
| HttpProtocolProps.TooLongCode | aqua/http.py:160 | the too-long answer has code 414 |
| HttpProtocolProps.InternalErrorCode | aqua/http.py:183 | the internal-error answer has code 500 |
| HttpProtocolProps.NotImplementedCode | aqua/http.py:200 | the default handler's answer has code 501 |
| HttpProtocolProps.BadRequestCode | aqua/http.py:276 | the bad-request answer has code 400 |
| HttpProtocolProps.VersionCode | aqua/http.py:270 | the version answer has code 505 |
| HttpProtocolProps.ErrorStatusCode | aqua/http.py:179-183 | every failure of the head parser is answered with a code of 400 or more |
| HttpProtocolProps.ErrorAnswer | aqua/http.py:230-258 | an error answer writes the status line and the blank line, cancels the timer and closes the transport |
| HttpProtocolProps.SetTimeoutLast | aqua/http.py:115-120 | at most one timer: a later setting replaces an earlier one, and 0 leaves none pending |
| HttpProtocolProps.ConnectionMadeSpec | aqua/http.py:123-134 | existing SERVER_NAME and SERVER_PORT defaults are kept, otherwise taken from the local address. REMOTE_ADDR is always the peer, and the first-request timer is armed |
| HttpProtocolProps.TimeoutCloses | aqua/http.py:144-149 | when the timer fires the transport ends closed and no timer is pending. This happens at once with no request, or after a 408 answer during one |
| HttpProtocolProps.BodyChunkCounts | aqua/http.py:218-227 | with a readable CONTENT_LENGTH, a chunk is appended to the input. The body is complete iff the input has reached the declared length, and completion cancels the timer |
| HttpProtocolProps.BodyChunkDropped | aqua/http.py:219-227 | without CONTENT_LENGTH the chunk is dropped and the body counts as complete |
| HttpProtocolProps.BodyChunkAfterComplete | aqua/http.py:218 | a chunk for a complete body fails the assertion and changes nothing |
| HttpProtocolProps.ChunkAfterComplete | aqua/http.py:177-183 | once the body is complete, another chunk fails the assert of `body_chunk_received` and is answered with 500: status line and blank line written, timer cancelled, transport closed |
| HttpProtocolProps.DataReceivedBody | aqua/http.py:177-183 | after the head, data goes to the body, and a failure there is answered with 500 |
| HttpProtocolProps.BodyPartial | aqua/http.py:221-224 | a chunk that stays below the declared length is appended and nothing else changes |
| HttpProtocolProps.FeedBody | aqua/http.py:221-224 | a run of chunks below the declared length is appended in order. Nothing is written and the timer is untouched |
| HttpProtocolProps.BodyCompletes | aqua/http.py:221-227 | the chunk that reaches the declared length completes the body and cancels the timer |
| HttpProtocolProps.StartedSpec | aqua/http.py:186-191 | a new request starts with no head received and the current environ, and the log, transport and dispatches are untouched |
| HttpProtocolProps.PartialHead | aqua/http.py:157-162 | a chunk without the end of the head replaces the buffer, whatever was there, and nothing else happens |
| HttpProtocolProps.HeadAcrossChunks | aqua/http.py:158-162 | a head split over two chunks is never parsed, even when its terminator straddles them |
| HttpProtocolProps.HeadTooLong | aqua/http.py:159-160 | a chunk longer than 64 KiB is answered with 414 and the connection closed |
| HttpProtocolProps.HeadRejected | aqua/http.py:162-180 | a head the parser rejects is answered with its error's status and the connection closed, with nothing dispatched. The protocol of the answer is the one the environ had before the head |
| HttpProtocolProps.FirstChunkTooLong | aqua/http.py:72-75 | on a connection made with the class default environ, a first chunk over 64 KiB is answered with `HTTP/1.0 414 Request Too Long` and a blank line, the timer cancelled and the transport closed, with nothing dispatched |
| HttpProtocolProps.FirstHeadRejected | aqua/http.py:159-164 | on the same connection, a first head the parser rejects is answered on `HTTP/1.0` with its error's status before any request variable is merged, and the transport closed |
| HttpProtocolProps.DefaultProtocol | aqua/http.py:72-75 | after `connection_made` with the class default environ, the first head is read into an environ whose `SERVER_PROTOCOL` is `HTTP/1.0`, with nothing written or dispatched |
| HttpProtocolProps.TooLongOnDefault | aqua/http.py:159-160 | while reading a first head on `HTTP/1.0`, a chunk over 64 KiB writes exactly the 414 status line and a blank line and closes |
| HttpProtocolProps.RejectedOnDefault | aqua/http.py:162-180 | while reading a first head on `HTTP/1.0`, a rejected head writes exactly its error's status line and a blank line and closes |
| HttpProtocolProps.ErrorStatusLatin1 | aqua/http.py:246 | every error status line on `HTTP/1.0` can be encoded as ISO-8859-1, so its answer cannot raise |
| HttpProtocolProps.RejectedAttempt | aqua/http.py:162-164 | a rejected head marks the head received and reports the error's outcome |
| HttpProtocolProps.AnswerRejected | aqua/http.py:179-180 | a head error raised while reading is answered by `response` with its status and no headers or body |
| HttpProtocolProps.ScanRejected | aqua/http.py:161-164 | the same for the head branch on any current environ |
| HttpProtocolProps.ScanFound | aqua/http.py:157-163 | a buffer within the size limit that holds the blank line marks the head received and splits at `pos + 4` |
| HttpProtocolProps.FoundRejected | aqua/http.py:164 | a head `parse_environ` rejects raises its error with nothing else changed |
| HttpProtocolProps.FoundParsed | aqua/http.py:164 | a head `parse_environ` accepts merges its variables over the environ before the body test |
| HttpProtocolProps.ScanParsed | aqua/http.py:161-176 | a parsed head is merged over the environ and followed by body gating and dispatch |
| HttpProtocolProps.ParsedAttempt | aqua/http.py:161-176 | the same at the start of a request |
| HttpProtocolProps.ReceivedAnswer | aqua/http.py:154-183 | `data_received` starts a request when there is no environ and answers whatever the reading raised; before the head it reads the head |
| HttpProtocolProps.AnswerDone | aqua/http.py:156-178 | reading that raises nothing leaves the state it reached, with no response |
| HttpProtocolProps.AnswerStep | aqua/http.py:173-176 | a handler call that raised nothing passes through the except clauses unchanged |
| HttpProtocolProps.ParsedWithoutBody | aqua/http.py:171-176 | without CONTENT_TYPE the request is marked complete and dispatched at once |
| HttpProtocolProps.HeadWithoutBody | aqua/http.py:162-176 | without CONTENT_TYPE, a coroutine handler receives the complete environ once. Nothing is written and the request timer keeps running |
| HttpProtocolProps.HeadNotImplemented | aqua/http.py:194-200 | with the inherited handler the same head is answered at once with 501 and the connection closed |
| HttpProtocolProps.ParsedWithBody | aqua/http.py:165-170 | with CONTENT_TYPE the first body chunk is taken before the handler runs |
| HttpProtocolProps.ParsedBody | aqua/http.py:165-170 | the bytes after the terminator are the first chunk. `Expect: 100-continue` writes the interim reply, and otherwise the timer is cancelled |
| HttpProtocolProps.HeadWithBody | aqua/http.py:162-176 | a head with CONTENT_TYPE and a readable CONTENT_LENGTH feeds the rest of the chunk to the body and dispatches once. The timer is cancelled unless the request expects 100-continue |
| HttpProtocolProps.ProgressTransitive | aqua/http.py:151-258 | `Progress` composes |
| HttpProtocolProps.ProgressAppend | aqua/http.py:151-258 | appending to the log and the dispatches, keeping a closed transport closed, is `Progress` |
| HttpProtocolProps.ResponseProgress | aqua/http.py:230-258 | `response` keeps `Progress` and dispatches nothing |
| HttpProtocolProps.BodyChunkProgress | aqua/http.py:211-227 | a body chunk keeps `Progress` and dispatches nothing |
| HttpProtocolProps.DispatchProgress | aqua/http.py:173-176 | dispatch keeps `Progress` and hands over exactly one environ |
| HttpProtocolProps.PreparedProgress | aqua/http.py:167-170 | the `Expect` step keeps `Progress`, the environ and the dispatches |
| HttpProtocolProps.DispatchAfter | aqua/http.py:173-176 | dispatch after a step without dispatches adds at most one |
| HttpProtocolProps.HeadParsedProgress | aqua/http.py:165-176 | what follows a parsed head keeps `Progress` and dispatches at most once |
| HttpProtocolProps.HeadFoundProgress | aqua/http.py:162-176 | a found head keeps `Progress` and dispatches at most once |
| HttpProtocolProps.ReceiveHeadProgress | aqua/http.py:157-176 | the head branch keeps `Progress` and dispatches at most once |
| HttpProtocolProps.HeadPending | aqua/http.py:158-162 | a buffer that is too long or has no blank line yet only replaces `_buff` in what the reading leaves |
| HttpProtocolProps.FoundProgress | aqua/http.py:161-176 | reading a complete head keeps `Progress` and dispatches at most one environ |
| HttpProtocolProps.ReceiveProgress | aqua/http.py:156-178 | the `try` block keeps `Progress` and dispatches at most once, and none once the head was received |
| HttpProtocolProps.AnswerProgress | aqua/http.py:179-183 | the error answers keep `Progress` and dispatch nothing |
| HttpProtocolProps.DataReceivedProgress | aqua/http.py:151-183 | `data_received` keeps `Progress` and hands at most one environ to the handler, none once the head of the current request was received |
| HttpProtocolProps.TimeoutProgress | aqua/http.py:144-149 | the timer callback keeps `Progress` and dispatches nothing |
| Text.Find | aqua/http.py:161 | a found index is an occurrence |
| Text.FindLeftmost | aqua/http.py:161 | `find` returns the leftmost occurrence, and None only when there is none |
| Text.Split | aqua/http.py:301 | `split` gives at least one piece |
| Text.JoinSplit | aqua/http.py:301-308 | joining the pieces of a split gives the string back |
| Text.SplitLacking | aqua/http.py:301 | a string without the separator is its own single piece |
| Text.SplitAround | aqua/http.py:301 | splitting distributes over an occurrence of the separator |
| Text.SplitPiecesLack | aqua/router.py:72 | no piece of a split holds the separator |
| Text.SplitJoin | aqua/router.py:72 | splitting a join of pieces without the separator gives them back |
| Text.SplitEmptyPiece | aqua/router.py:73 | only the empty string splits into one empty piece |
| Text.SplitPrefixLacking | aqua/http.py:301 | a prefix without the separator joins the first piece |
| Text.SplitQuotedSlash | aqua/http.py:274 | the case-insensitive `%2F` split gives at least one piece |
| Text.SplitQuotedSlashLacking | aqua/http.py:274 | a path without `%` is one atom |
| Text.SplitQuotedSlashAfter | aqua/http.py:274 | `%2F` and `%2f` both end an atom |
| Text.TrimLeft | aqua/http.py:288 | the left strip removes exactly the leading whitespace |
| Text.TrimRight | aqua/http.py:288 | the right strip removes exactly the trailing whitespace |
| Text.StripSpace | aqua/http.py:286 | a single whitespace character strips to the empty string |
| Text.UpperChar | aqua/http.py:289 | an upper-cased character holds no lower-case ASCII letter |
| Text.Upper | aqua/http.py:289 | an upper-cased name holds no lower-case ASCII letter |
| Text.ReplaceChar | aqua/http.py:289 | `replace('-', '_')` keeps the length and changes exactly the `-` |
| Text.PyInt | aqua/http.py:238 | `int()` of a stripped string starting with a digit is not negative |
| Text.PyHexInt | aqua/http.py:305 | two hex digits have their value, and an empty argument or one starting with a non-number character fails |
| Text.DecimalString | aqua/http.py:130 | `str(n)`: a non-empty string of digits, the decimal digits of `n` |
| Text.StrLessIrreflexive | aqua/router.py:113 | no str sorts below itself |
| Text.StrLessAsymmetric | aqua/router.py:113 | `<` on str is asymmetric |
| Text.StrLessTotal | aqua/router.py:113 | two different strs are ordered one way or the other |
| Text.StrLessTransitive | aqua/router.py:113 | `<` on str is transitive |
| Text.TupleLessAsymmetric | aqua/router.py:113 | `<` on tuples is asymmetric |
| Text.TupleLessTotal | aqua/router.py:113 | two different tuples are ordered one way or the other |
| Text.TupleLessTransitive | aqua/router.py:113 | `<` on tuples is transitive |
| Text.TupleNotLessTransitive | aqua/router.py:113 | `<=` on tuples is transitive |
| Text.StrLessPrepend | aqua/router.py:149 | a common prefix does not change the order of two strs |
| Text.ProperPrefixLess | aqua/router.py:149 | a proper prefix sorts first |
| RouteTrie.Get | aqua/router.py:19 | the entry found for a method is in the table, and none is found only when the table lacks the method |
| RouteTrie.MethodNames | aqua/router.py:27 | the method names in table order |
| RouteTrie.Bind | aqua/router.py:22 | the url vars are keyed by exactly the parameter names |
| RouteTrieProps.BindValue | aqua/router.py:22 | a name that does not occur again binds the value in its position, or None past the values |
| RouteTrieProps.BindFirst | aqua/router.py:22 | the first name binds the first value, or None |
| RouteTrieProps.GetAppend | aqua/router.py:42 | registering a new method makes its entry the one found |
| RouteTrieProps.GetAppendOther | aqua/router.py:42 | registering a method leaves the other methods' entries alone |
| RouteTrieProps.AddFresh | aqua/router.py:50-53 | registering anything below a fresh node cannot fail. So the child created before the recursive call is never left behind, and a rejected add leaves the trie as it was |
| RouteTrieProps.EmptyValid | aqua/router.py:13-15 | a fresh node is well formed |
| RouteTrieProps.AddValid | aqua/router.py:32-55 | `add` keeps the trie well formed: a node that takes literal children has only entries without parameters |
| RouteTrieProps.ResolveWalk | aqua/router.py:19-24 | following literal segments through a well-formed trie is what resolution does |
| RouteTrieProps.AddEndpointWalk | aqua/router.py:34-42 | after `add`, the node under the path holds the new entry for its method |
| RouteTrieProps.AddMountWalk | aqua/router.py:43-46 | after a mount, the node under the path is the mounted root |
| RouteTrieProps.ResolveAfterAdd | aqua/router.py:17-55 | resolve after add: the literal segments plus at most as many values as parameter names resolve to the endpoint. The names bind the values in order and then None |
| RouteTrieProps.MountResolves | aqua/router.py:17-24 | below the mount point, the trie answers as the mounted one |
| RouteTrieProps.ResolveAllowed | aqua/router.py:25-27 | with no segment left at a node lacking the method, its methods are reported |
| RouteTrieProps.ResolveMissing | aqua/router.py:21-29 | with a segment left and no child for it, nothing is found, whatever other methods the node has and however short its entry for the method is |
| RouteTrieProps.WalkPrefix | aqua/router.py:50-53 | walking a prefix of the path goes through the first child |
| RouteTrieProps.AddConflict | aqua/router.py:32-55 | add conflicts: `add` fails iff a node above the path has stopped taking literal children, or the node at the path clashes (method there already, parameters against literal children, or a mount on a non-empty node). An endpoint's failure is always a ValueError |
| RouteTrieProps.BlockedAboveChild | aqua/router.py:50-55 | a node above the path is blocked iff the root is, or one above the rest of the path below the child |
| RouteTrieProps.AddMountTypeError | aqua/router.py:43-48 | a mount raises TypeError (from `len(None)`) iff nothing above is blocked and the node has no methods and has stopped taking literal children |
| Routing.RebaseAll | aqua/router.py:147-150 | rebasing a list rebases each entry in place, keeping the length |
| Router.TraversalRouter.constructor | aqua/router.py:61-63 | an empty index and a fresh trie |
| Router.TraversalRouter.AddRoute | aqua/router.py:82-113 | the new trie and index are those `Routing.AddRoute` gives. On an exception that exception is returned and nothing changes |
| Router.TraversalRouter.Parse | aqua/router.py:90-101 | the template loop's literals and parameter names, or its IndexError or NameError |
| Router.TraversalRouter.UrlFor | aqua/router.py:116-134 | the loops of `url_for` compute exactly `Routing.UrlFor` |
| Router.TraversalRouter.Fill | aqua/router.py:122-131 | the inner loop's `result` and `found_none` |
| Router.TraversalRouter.Rebased | aqua/router.py:147-150 | the in-place rewrite of a list's entries gives the rebased list |
| Router.TraversalRouter.Update | aqua/router.py:136-151 | the new trie and index are those `Routing.Update` gives for the sub-router before the call. On an exception that exception is returned and nothing changes |
| Router.TraversalRouter.Merge | aqua/router.py:145-151 | the loop over the sub-router's views gives the merged index |
| Router.MergedEmpty | aqua/router.py:145-151 | merging no views leaves the index as it was |
| Router.PrefixedAdd | aqua/router.py:146 | prefixing one more name adds that prefixed name |
| Router.MergedAdd | aqua/router.py:145-151 | one more view of the sub-router writes its rebased list under its prefixed name |
| RoutingProps.SegmentsLack | aqua/router.py:72-73 | no segment of a path holds a slash |
| RoutingProps.SegmentsJoin | aqua/router.py:72-73 | `'/' + '/'.join(xs)` splits back into `xs` |
| RoutingProps.SplitEmpty | aqua/router.py:73 | the empty string splits into one empty piece |
| RoutingProps.SegmentsRoot | aqua/router.py:73 | `/` has no segments |
| RoutingProps.ParamsAppend | aqua/router.py:101 | one more parameter name is one more `:name` segment |
| RoutingProps.ParseLiterals | aqua/router.py:94-97 | literal segments are collected while no parameter has been seen |
| RoutingProps.ParseParams | aqua/router.py:100-101 | parameter segments are collected whatever came before |
| RoutingProps.ParsePrefix | aqua/router.py:94-101 | the literals and then the parameters are consumed before what follows |
| RoutingProps.ParseTemplate | aqua/router.py:90-101 | literals followed by parameters parse to exactly those |
| RoutingProps.ParseEmptySegment | aqua/router.py:95 | an empty segment fails at `part[0]` with IndexError |
| RoutingProps.ParseLiteralAfterParam | aqua/router.py:96-99 | a literal after a parameter fails with NameError, since `path` is undefined |
| RoutingProps.ParseResult | aqua/router.py:90-101 | what parsed is the template it came from: the literals, then the parameters |
| RoutingProps.ParseRouteShape | aqua/router.py:90-101 | the templates accepted are exactly literal segments followed by parameters, both ways |
| RoutingProps.ParsedLiterals | aqua/router.py:94-101 | an accepted template's literals are its leading segments, without slashes |
| RoutingProps.AddRouteValid | aqua/router.py:102-105 | `add_route` keeps the trie well formed |
| RoutingProps.AddRouteResolves | aqua/router.py:102-105 | resolve after add: the literals plus at most as many values as parameters resolve to the view, binding the values in order and then None |
| RoutingProps.RouteAfterAddRoute | aqua/router.py:65-80 | the same for `route` on the path `'/' + '/'.join(literals + values)` |
| RoutingProps.BindDistinct | aqua/router.py:22 | with distinct names each binds the value in its position, or None |
| RoutingProps.RouteExhausted | aqua/router.py:75-79 | 405 against 404: with segments exhausted at a node lacking the method, the answer is 405 with the node's methods joined by commas, or 404 when it has none |
| RoutingProps.RouteMissing | aqua/router.py:75-79 | with segments left and no child for the next one, the answer is 404 even when the node has other methods |
| RoutingProps.AddRouteRejected | aqua/router.py:90-105 | `add_route` fails iff the template does not parse or the trie refuses the endpoint. A parse error propagates, and a refusal is raised again as ValueError |
| RoutingProps.InsertElements | aqua/router.py:112-113 | inserting adds exactly the entry |
| RoutingProps.InsertDescending | aqua/router.py:113 | inserting keeps a list in descending order |
| RoutingProps.InsertBelowHead | aqua/router.py:113 | putting the entry behind the head keeps the order |
| RoutingProps.InsertAtHead | aqua/router.py:113 | an entry at least as great as the head goes first and keeps the order |
| RoutingProps.InsertDistinct | aqua/router.py:111-113 | inserting a new entry keeps the list unrepeated |
| RoutingProps.SortDescendingFacts | aqua/router.py:113 | `list(reversed(sorted(l)))` is a descending permutation of `l`, unrepeated if `l` is |
| RoutingProps.IndexedFacts | aqua/router.py:107-113 | indexing puts the entry in its name's list once, keeps it sorted and unrepeated, and leaves other names alone |
| RoutingProps.AddRouteIndex | aqua/router.py:107-113 | reverse index: the template's entry is in its view name's list, added once unless already there. The list stays sorted and unrepeated, and other names keep their lists |
| RoutingProps.AddRouteKeepsIndex | aqua/router.py:107-113 | `add_route` keeps every list sorted and unrepeated |
| RoutingProps.AddRouteSameTemplate | aqua/router.py:110-111 | the same template under another method leaves the index unchanged, so GET and POST share one entry |
| RoutingProps.Supplied | aqua/router.py:123-128 | no more values are supplied than there are names |
| RoutingProps.MissingTail | aqua/router.py:124-125 | a name is missing iff the first is or one of the rest is |
| RoutingProps.VoidedTail | aqua/router.py:125-131 | voiding, one name at a time: a missing first name sets the flag for the rest. A supplied first name voids the candidate when the flag is already set; otherwise only the rest can void it |
| RoutingProps.FillFacts | aqua/router.py:122-131 | `found_none` ends set iff it was or some name is missing. The candidate is voided iff a supplied name follows a missing one. Otherwise the supplied values are appended in name order |
| RoutingProps.SuppliedPrefix | aqua/router.py:123-128 | with supplied names before missing ones, the values are the leading names' values |
| RoutingProps.SuppliedNone | aqua/router.py:124-126 | with no name supplied, nothing is appended |
| RoutingProps.ScannedAppend | aqua/router.py:119 | the candidate loop runs over two lists one after the other |
| RoutingProps.ScannedSkip | aqua/router.py:121 | candidates that do not qualify change nothing |
| RoutingProps.ScannedFoundNone | aqua/router.py:118-125 | `found_none` is never reset: it ends set iff some qualifying candidate missed a name |
| RoutingProps.UrlForNone | aqua/router.py:117-134 | unless some candidate's names cover the supplied ones, the result is None |
| RoutingProps.UrlForLast | aqua/router.py:119-131 | no early exit: the last qualifying candidate decides the result, filled from the flag the earlier ones left |
| RoutingProps.UrlForVoidedByEarlier | aqua/router.py:118-131 | once a qualifying candidate missed a name, a later one given any value is voided. If it is the last, the result is None |
| RoutingProps.FreshIndex | aqua/router.py:107-113 | a view name registered for the first time has the template's entry alone |
| RoutingProps.ItemPathSplit | aqua/router.py:122 | an entry's path splits into an empty piece and its literals |
| RoutingProps.UrlForFresh | aqua/router.py:107-134 | for a name registered once, with a literal segment, the url is `'/' + '/'.join(literals + supplied values)` |
| RoutingProps.UrlForSingle | aqua/router.py:116-134 | the same for a name whose only entry is the template's |
| RoutingProps.NotVoided | aqua/router.py:125-131 | with supplied names before missing ones, no candidate is voided |
| RoutingProps.UrlForRoundTrip | aqua/router.py:107-134 | reverse and forward agree, for a name registered once with a literal segment and distinct parameter names. With slash-free values for its leading names, the url exists and `route` maps it back to the view, each supplied name bound to its value and the rest to None |
| RoutingProps.RouteOfUrlArgs | aqua/router.py:65-80 | after `add_route`, the path of the literals and leading supplied values routes to the view, each name bound to its supplied value or None |
| RoutingProps.RouteOfUrl | aqua/router.py:65-80 | the same path routes to the view with the parameter names bound to those values by `zip_longest` |
| RoutingProps.BindSupplied | aqua/router.py:22 | distinct names zipped with the values of their supplied leading part bind each name to its value or None, and no value holds a slash |
| RoutingProps.UrlForRootParam | aqua/router.py:122-133 | for the template `/:name` alone, the url is `//v`, whose segments are an empty one and `v` |
| RoutingProps.UpdateRejected | aqua/router.py:138-143 | `update` fails iff the prefix has no segment or the trie refuses the mount. An empty prefix is ValueError, and TypeError comes exactly from a blocked node without methods |
| RoutingProps.UpdateValid | aqua/router.py:141 | `update` keeps the trie well formed when the sub-router's is |
| RoutingProps.UpdateResolves | aqua/router.py:141 | below the prefix's segments the trie answers as the sub-router's did |
| RoutingProps.SegmentsConcat | aqua/router.py:138-139 | the segments of `script_name + path` are each one's segments, for a path that is empty or longer than `/` |
| RoutingProps.SegmentsSlash | aqua/router.py:72 | `'/' + t` has the pieces of `t` as segments |
| RoutingProps.SegmentsAfter | aqua/router.py:72-73 | the segments of `script_name + '/' + t` |
| RoutingProps.RouteAfterUpdate | aqua/router.py:136-143 | the mount correspondence: `s + P` routes as `P` did in the sub-router |
| RoutingProps.PrefixedName | aqua/router.py:146 | a prefixed name gives back its prefix and its name |
| RoutingProps.UpdateViews | aqua/router.py:145-151 | each sub-router view name appears as `':'.join(segments) + ':' + name` with rebased templates, overwriting any entry. Every other name keeps its list |
| RoutingProps.RebaseOrder | aqua/router.py:149-150 | rebasing keeps the order and the distinctness of templates rooted at `/` |
| RoutingProps.TupleLessCons | aqua/router.py:113 | tuples compare by their first element, then the rest |
| RoutingProps.RebaseAllValid | aqua/router.py:147-151 | a rebased sorted, unrepeated, rooted list stays sorted and unrepeated |
| RoutingProps.UpdateKeepsIndex | aqua/router.py:145-151 | `update` on a `/`-rooted mount point keeps the index sorted, unrepeated and rooted |
| RoutingProps.MergedKeepsIndex | aqua/router.py:145-151 | merging a `/`-rooted sub-router's index under a mount point that starts with `/` keeps every entry list descending and unrepeated, and every path starting with `/` |
| RoutingProps.AddRouteRooted | aqua/router.py:110 | every indexed template path starts with `/` |

## Specification functions

These functions define the source's routines and their steps, and carry no contract of their own.
The lemmas listed beside each one, all rows of "## Model", state what it does.

| function | source | lemmas about it |
|---|---|---|
| `RouteTrie.Resolve` | aqua/router.py:17-29 | `RouteTrieProps.ResolveWalk`, `ResolveAfterAdd`, `MountResolves`, `ResolveAllowed`, `ResolveMissing` |
| `RouteTrie.Add` | aqua/router.py:32-55 | `RouteTrieProps.AddConflict`, `AddValid`, `AddFresh`, `AddEndpointWalk`, `AddMountWalk`, `AddMountTypeError`, `ResolveAfterAdd` |
| `Routing.Route` | aqua/router.py:65-80 | `RoutingProps.RouteExhausted`, `RouteMissing`, `RouteAfterAddRoute`, `RouteAfterUpdate`, `UrlForRoundTrip` |
| `Routing.Segments` | aqua/router.py:72-73 | `RoutingProps.SegmentsLack`, `SegmentsJoin`, `SegmentsRoot`, `SegmentsConcat`, `SegmentsAfter` |
| `Routing.ParseRoute` | aqua/router.py:90-101 | `RoutingProps.ParseRouteShape`, `ParseResult`, `ParseTemplate`, `ParseEmptySegment`, `ParseLiteralAfterParam`; `Router.TraversalRouter.Parse` |
| `Routing.AddRoute` | aqua/router.py:82-113 | `RoutingProps.AddRouteRejected`, `AddRouteValid`, `AddRouteResolves`, `AddRouteIndex`, `AddRouteKeepsIndex`, `AddRouteSameTemplate`, `AddRouteRooted`; `Router.TraversalRouter.AddRoute` |
| `Routing.UrlFor` | aqua/router.py:116-134 | `RoutingProps.UrlForNone`, `UrlForLast`, `UrlForVoidedByEarlier`, `UrlForSingle`, `UrlForRoundTrip`, `UrlForRootParam`; `Router.TraversalRouter.UrlFor` |
| `Routing.Update` | aqua/router.py:136-151 | `RoutingProps.UpdateRejected`, `UpdateValid`, `UpdateResolves`, `UpdateViews`, `UpdateKeepsIndex`, `RouteAfterUpdate`; `Router.TraversalRouter.Update` |
| `HttpHead.Unquoted` | aqua/http.py:299-308 | `HttpHeadProps.UnquoteQuote`, `UnquotedPlain`, `UnquotedLacking`, `UnquotedPercent`, `UnquotedEscape`, `UnquotedBadEscape`, `UnquotedTrailingPercent`; `HttpHead.UnquoteBytes` |
| `HttpHead.DecodePath` | aqua/http.py:273-277 | `HttpHeadProps.DecodePathLacking`, `DecodePathSlash`, `DecodePathEscape`; `HttpHead.DecodePathAtoms` |
| `HttpHead.HeaderStep` | aqua/http.py:283-295 | `HttpHeadProps.HeaderStepLine`, `ContinuationStep`, `HeaderStepKeys`; `HttpHead.ReadHeaderLine` |
| `HttpHead.HeaderFold` | aqua/http.py:281-296 | `HttpHeadProps.HeaderFoldCons`, `HeaderFoldStops`, `HeaderFoldLine`, `HeaderContinuation`, `HeaderRepeated`, `HeaderFoldKeys`; `HttpHead.ReadHeaders` |
| `HttpHead.ParseEnvironSpec` | aqua/http.py:263-296 | `HttpHeadProps.ParseEnvironErrors`, `ParseEnvironKeys`, `RequestVarsNotHeaders`; `HttpHead.ParseEnviron` |
| `HttpProtocol.SetTimeout` | aqua/http.py:115-120 | `HttpProtocolProps.SetTimeoutLast`; `HttpConnection.Connection.SetTimeout` |
| `HttpProtocol.ConnectionMade` | aqua/http.py:123-134 | `HttpProtocolProps.ConnectionMadeSpec`, `DefaultProtocol`; `HttpConnection.Connection.ConnectionMade` |
| `HttpProtocol.StartRequest` | aqua/http.py:186-191 | `HttpProtocolProps.StartedSpec`; `HttpConnection.Connection.StartRequest` |
| `HttpProtocol.ExpectContinue` | aqua/http.py:203-208 | `HttpProtocolProps.ParsedBody`, `PreparedProgress`; `HttpConnection.Connection.ExpectContinue` |
| `HttpProtocol.Response` | aqua/http.py:230-258 | `HttpProtocolProps.ResponseSpec`, `ResponseOpeningSpec`, `EmitSpec`, `ErrorAnswer`, `ResponseProgress`; `HttpConnection.Connection.Response` |
| `HttpProtocol.ConnectionTimeout` | aqua/http.py:144-149 | `HttpProtocolProps.TimeoutCloses`, `TimeoutProgress`; `HttpConnection.Connection.ConnectionTimeout` |
| `HttpProtocol.Dispatch` | aqua/http.py:173-176 | `HttpProtocolProps.DispatchProgress`, `DispatchAfter`, `HeadNotImplemented`; `HttpConnection.Connection.Dispatch` |
| `HttpProtocol.DataReceived` | aqua/http.py:151-183 | `HttpProtocolProps.ReceivedAnswer`, `DataReceivedProgress`, `HeadTooLong`, `HeadRejected`, `HeadWithoutBody`, `HeadWithBody`, `ChunkAfterComplete`, `FirstChunkTooLong`, `FirstHeadRejected`; `HttpConnection.Connection.DataReceived` |
| `HttpProtocol.Initial` | aqua/http.py:77-80 | `HttpConnection.Connection.constructor`, `HttpProtocolProps.DefaultProtocol` |
| `HttpProtocol.Latin1` | aqua/http.py:246 | `HttpProtocolProps.ErrorStatusLatin1`, `WriteHeadersRaises` |
| `HttpProtocol.StatusCode` | aqua/http.py:238 | `HttpProtocolProps.StatusCodeOf`, `ErrorStatusCode`, `TimeoutCode`, `TooLongCode`, `InternalErrorCode`, `NotImplementedCode`, `BadRequestCode`, `VersionCode` |
| `HttpProtocol.InitialClose` | aqua/http.py:239-245 | `HttpProtocolProps.ResponseOpeningSpec`, `ProtocolOrder` |
| `HttpProtocol.WriteHeaders` | aqua/http.py:247-250 | `HttpProtocolProps.WriteHeadersWrites`, `WriteHeadersRaises`, `WriteHeadersExtends` |
| `HttpProtocol.StatusLine` | aqua/http.py:246 | `HttpProtocolProps.ErrorAnswer`, `ErrorStatusLatin1`, `TooLongOnDefault`, `RejectedOnDefault` |
| `HttpProtocol.ResponseOpening` | aqua/http.py:237-246 | `HttpProtocolProps.ResponseOpeningSpec` |
| `HttpProtocol.Emit` | aqua/http.py:246-258 | `HttpProtocolProps.EmitSpec` |
| `HttpProtocol.HeadParsed` | aqua/http.py:165-176 | `HttpProtocolProps.HeadParsedProgress`, `ParsedWithBody`, `ParsedWithoutBody` |
| `HttpProtocol.HeadFound` | aqua/http.py:163-176 | `HttpProtocolProps.FoundRejected`, `FoundParsed` |
| `HttpProtocol.ReceiveHead` | aqua/http.py:157-176 | `HttpProtocolProps.HeadPending`, `ReceiveHeadProgress` |
| `HttpProtocol.ScanHead` | aqua/http.py:161-176 | `HttpProtocolProps.ScanFound`, `ScanRejected`, `ScanParsed` |
| `HttpProtocol.Receive` | aqua/http.py:156-178 | `HttpProtocolProps.ReceivedAnswer`, `ReceiveProgress` |
| `HttpProtocol.Answer` | aqua/http.py:179-183 | `HttpProtocolProps.AnswerDone`, `AnswerStep`, `AnswerRejected`, `AnswerProgress` |
| `Routing.ParseParts` | aqua/router.py:90-101 | `RoutingProps.ParseResult`, `ParseRouteShape`; `Router.TraversalRouter.Parse` |
| `Routing.ViewName` | aqua/router.py:107 | `RoutingProps.AddRouteIndex`, `AddRouteSameTemplate` |
| `Routing.ItemOf` | aqua/router.py:110 | `RoutingProps.AddRouteIndex`, `ItemPathSplit`, `AddRouteRooted` |
| `Routing.Insert` | aqua/router.py:111-113 | `RoutingProps.InsertElements`, `InsertDescending`, `InsertDistinct`, `InsertBelowHead` |
| `Routing.SortDescending` | aqua/router.py:113 | `RoutingProps.SortDescendingFacts` |
| `Routing.Indexed` | aqua/router.py:107-113 | `RoutingProps.IndexedFacts`, `FreshIndex` |
| `Routing.Qualifies` | aqua/router.py:121 | `RoutingProps.UrlForNone`, `ScannedSkip` |
| `Routing.Fill` | aqua/router.py:122-131 | `RoutingProps.FillFacts`, `MissingTail`, `VoidedTail`, `SuppliedPrefix`; `Router.TraversalRouter.Fill` |
| `Routing.Scanned` | aqua/router.py:116-134 | `RoutingProps.ScannedAppend`, `ScannedSkip`, `ScannedFoundNone`, `UrlForLast` |
| `Routing.Rebase` | aqua/router.py:147-150 | `Routing.RebaseAll`, `RoutingProps.RebaseOrder`, `RebaseAllValid`; `Router.TraversalRouter.Rebased` |
| `Routing.NamePrefix` | aqua/router.py:146 | `RoutingProps.PrefixedName`, `UpdateViews` |
| `Routing.MountedName` | aqua/router.py:145-151 | `RoutingProps.UpdateViews` |
| `Routing.Merged` | aqua/router.py:145-151 | `RoutingProps.MergedKeepsIndex`, `UpdateViews`; `Router.MergedAdd`, `MergedEmpty` |

## Left out

- The asyncio runtime is not modelled: `loop.call_later`, `asyncio.Task` and `iscoroutinefunction`. The timer is a duration and a pending flag. A coroutine handler is the `Deferred` handler, which records the environ. The inherited handler answers at once.
- `Request.finish_reading` (aqua/http.py:43-58) is a polling sleep loop and is not part of this model.
- Logging and `connection_lost` have no effect on the state, so they are not modelled.
- The shared class-level `default_environ` is not modelled as shared. `connection_made` updates it in place for every connection; the model keeps it as a per-connection value.
- Non-str environ entries are not modelled: `wsgi.errors`, and the `aqua.complete` default in the defaults. The completion flag and the input buffer are fields of the environ instead.
- The transport is a log of written strings and a closed flag. `get_extra_info` addresses become parameters of `ConnectionMade`.
- Float timeouts (0.2, 5.0, 3.0 s) are whole milliseconds, compared only with 0.
- The Latin-1 `encode`/`decode` is the identity on characters 0-255, and encoding fails on anything above.
- `int(x, 16)` in `unquote_bytes` is exact only for arguments of at most two characters, which is all the source passes it.
- `_RouteItem.add` and the trie are modelled on values, not as linked mutable objects. A rejected `add` provably changes nothing (`RouteTrieProps.AddFresh`), and the in-place update order is not represented.
- Router.TraversalRouter.Update: the mount is a copy. The source shares the sub-router's dicts with the grafted node and rewrites `value[N]` in the sub-router's own lists, so later changes to either router show in the other; the model does not capture that aliasing, nor a router mounted into itself.
- `add_route` with a list of methods, or a view that is None, is not modelled: the method is a single string and the view a value.
- `url_for` keyword values that are explicitly None are not modelled: a supplied value is always a string.
- `route` raises webob's `HTTPNotFound`/`HTTPMethodNotAllowed`; the model returns them as `Routed` values.
- aqua/app.py is not part of this model: the handler decorator, webob wrapping and `sub_application`.
- RoutingProps.UrlForRoundTrip requires a template with at least one literal segment. For `/:name` the source builds `//v`, which does not route back to the template, as `RoutingProps.UrlForRootParam` shows.
- RoutingProps.RouteAfterUpdate excludes the sub-path `/`: `script_name + '/'` has an empty last segment, which the sub-router's root does not see.
