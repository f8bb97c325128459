/**
 * Properties of the connection protocol of aqua/http.py: what a response writes and
 * when it closes the connection, how body chunks accumulate, what a chunk of a
 * request head does, and what the timer callback does.
 */
module HttpProtocolProps {
  import opened Types
  import opened Text
  import opened HttpHead
  import opened HttpProtocol

  // ---------------------------------------------------------------------------
  // The header loop of response
  // ---------------------------------------------------------------------------

  /** The lines written for a list of response headers. */
  function HeaderLines(headers: seq<(string, string)>): seq<string>
  {
    if |headers| == 0 then [] else [HeaderLine(headers[0].0, headers[0].1)] + HeaderLines(headers[1..])
  }

  /** Every header line can be encoded as ISO-8859-1. */
  predicate Encodable(headers: seq<(string, string)>)
  {
    forall i :: 0 <= i < |headers| ==> Latin1(HeaderLine(headers[i].0, headers[i].1))
  }

  /** Some header is exactly `Connection: close`. */
  predicate AsksToClose(headers: seq<(string, string)>)
  {
    exists i :: 0 <= i < |headers| && headers[i].0 == "Connection" && headers[i].1 == "close"
  }

  /** The header loop raises exactly when some header line cannot be encoded. */
  lemma {:induction false} WriteHeadersRaises(headers: seq<(string, string)>, close: bool, log: seq<string>)
    ensures WriteHeaders(headers, close, log).raised <==> !Encodable(headers)
    decreases |headers|
  {
    if |headers| > 0 {
      var close' := if !close && headers[0].0 == "Connection" then headers[0].1 == "close" else close;
      var line := HeaderLine(headers[0].0, headers[0].1);
      var tail := headers[1..];
      if Latin1(line) {
        WriteHeadersRaises(tail, close', log + [line]);
        if !Encodable(tail) {
          var i :| 0 <= i < |tail| && !Latin1(HeaderLine(tail[i].0, tail[i].1));
          assert tail[i] == headers[i + 1];
        }
        if !Encodable(headers) {
          var i :| 0 <= i < |headers| && !Latin1(HeaderLine(headers[i].0, headers[i].1));
          assert i > 0 && tail[i - 1] == headers[i];
        }
      }
    }
  }

  /** The header loop only appends to the transport log. */
  lemma {:induction false} WriteHeadersExtends(headers: seq<(string, string)>, close: bool, log: seq<string>)
    ensures var e := WriteHeaders(headers, close, log); |log| <= |e.log| && e.log[..|log|] == log
    decreases |headers|
  {
    if |headers| > 0 {
      var close' := if !close && headers[0].0 == "Connection" then headers[0].1 == "close" else close;
      var line := HeaderLine(headers[0].0, headers[0].1);
      if Latin1(line) {
        WriteHeadersExtends(headers[1..], close', log + [line]);
        var e := WriteHeaders(headers[1..], close', log + [line]);
        assert e.log[..|log|] == (e.log[..|log| + 1])[..|log|];
      } else {
        assert log[..|log|] == log;
      }
    } else {
      assert log[..|log|] == log;
    }
  }

  /**
   * When no line fails to encode, the header loop writes every line in order and
   * ends with the close flag set exactly when it started set or some header is
   * `Connection: close`: a header can switch a kept connection to closing, never
   * the other way.
   */
  lemma {:induction false} WriteHeadersWrites(headers: seq<(string, string)>, close: bool, log: seq<string>)
    requires !WriteHeaders(headers, close, log).raised
    ensures var e := WriteHeaders(headers, close, log);
            e.log == log + HeaderLines(headers) && e.close == (close || AsksToClose(headers))
    decreases |headers|
  {
    if |headers| > 0 {
      var (name, value) := headers[0];
      var close' := if !close && name == "Connection" then value == "close" else close;
      var line := HeaderLine(name, value);
      var tail := headers[1..];
      WriteHeadersWrites(tail, close', log + [line]);
      assert (log + [line]) + HeaderLines(tail) == log + HeaderLines(headers);
      if AsksToClose(tail) {
        var i :| 0 <= i < |tail| && tail[i].0 == "Connection" && tail[i].1 == "close";
        assert headers[i + 1] == tail[i];
      }
      if AsksToClose(headers) && !(name == "Connection" && value == "close") {
        var i :| 0 <= i < |headers| && headers[i].0 == "Connection" && headers[i].1 == "close";
        assert i > 0 && tail[i - 1] == headers[i];
      }
    }
  }

  // ---------------------------------------------------------------------------
  // response
  // ---------------------------------------------------------------------------

  /**
   * A response can start unless its code is not an integer, there is no environ, the
   * environ lacks `SERVER_PROTOCOL`, or the status line cannot be encoded. It closes
   * the connection for a code of 400 or more; otherwise a request `Connection`
   * header decides, and without one a protocol older than HTTP/1.1 closes.
   */
  lemma ResponseOpeningSpec(env: Option<Environ>, status: string)
    ensures var o := ResponseOpening(env, status);
            var code := StatusCode(status);
            && (o.Some? <==>
                  code.Some? && env.Some? && "SERVER_PROTOCOL" in env.value.vars
                  && Latin1(StatusLine(env.value.vars["SERVER_PROTOCOL"], status)))
            && (o.Some? ==>
                  && o.value.line == StatusLine(env.value.vars["SERVER_PROTOCOL"], status)
                  && o.value.close == (code.value >= 400 ||
                                       if "HTTP_CONNECTION" in env.value.vars then env.value.vars["HTTP_CONNECTION"] == "close"
                                       else StrLess(env.value.vars["SERVER_PROTOCOL"], "HTTP/1.1")))
  {
  }

  /** Whether a response that could start closes the connection. */
  predicate Closes(o: Opening, headers: seq<(string, string)>)
  {
    o.close || AsksToClose(headers)
  }

  /**
   * What `response` does: the timer is always cancelled first; it raises exactly when
   * it cannot start or a header line cannot be encoded; otherwise it writes the
   * status line, the header lines, the blank line and the body in that order, then
   * closes the transport or forgets the environ and waits for the next request.
   */
  lemma ResponseSpec(s: ConnState, status: string, headers: seq<(string, string)>, body: seq<string>)
    ensures var r := Response(s, status, headers, body);
            var o := ResponseOpening(s.environ, status);
            && r.state.connected == s.connected && r.state.defaults == s.defaults && r.state.buff == s.buff
            && r.state.headerReceived == s.headerReceived && r.state.dispatched == s.dispatched
            && (r.raised <==> o.None? || !Encodable(headers))
            && |s.written| <= |r.state.written| && r.state.written[..|s.written|] == s.written
            && (r.raised || Closes(o.value, headers) ==> r.state.timeout == 0 && !r.state.timerPending)
            && (r.raised ==> r.state.closed == s.closed && r.state.environ == s.environ)
            && (!r.raised ==>
                  && r.state.written == s.written + [o.value.line] + HeaderLines(headers) + ["\r\n"] + body
                  && r.state.closed == (s.closed || Closes(o.value, headers))
                  && (Closes(o.value, headers) ==> r.state.environ == s.environ)
                  && (!Closes(o.value, headers) ==>
                        r.state.environ.None? && r.state.timeout == KeepaliveTimeout && r.state.timerPending))
  {
    var o := ResponseOpening(s.environ, status);
    if o.Some? {
      EmitSpec(SetTimeout(s, 0), o.value, headers, body);
    } else {
      assert s.written[..|s.written|] == s.written;
    }
  }

  /** The writes of a response that could start, from the state with its timer cancelled. */
  lemma EmitSpec(s: ConnState, o: Opening, headers: seq<(string, string)>, body: seq<string>)
    ensures var r := Emit(s, o, headers, body);
            && r.state.connected == s.connected && r.state.defaults == s.defaults && r.state.buff == s.buff
            && r.state.headerReceived == s.headerReceived && r.state.dispatched == s.dispatched
            && (r.raised <==> !Encodable(headers))
            && |s.written| <= |r.state.written| && r.state.written[..|s.written|] == s.written
            && (r.raised || Closes(o, headers) ==> r.state.timeout == s.timeout && r.state.timerPending == s.timerPending)
            && (r.raised ==> r.state.closed == s.closed && r.state.environ == s.environ)
            && (!r.raised ==>
                  && r.state.written == s.written + [o.line] + HeaderLines(headers) + ["\r\n"] + body
                  && r.state.closed == (s.closed || Closes(o, headers))
                  && (Closes(o, headers) ==> r.state.environ == s.environ)
                  && (!Closes(o, headers) ==>
                        r.state.environ.None? && r.state.timeout == KeepaliveTimeout && r.state.timerPending))
  {
    WriteHeadersRaises(headers, o.close, s.written + [o.line]);
    WriteHeadersExtends(headers, o.close, s.written + [o.line]);
    var h := WriteHeaders(headers, o.close, s.written + [o.line]);
    assert h.log[..|s.written|] == h.log[..|s.written| + 1][..|s.written|];
    if !h.raised {
      WriteHeadersWrites(headers, o.close, s.written + [o.line]);
      var w := h.log + ["\r\n"] + body;
      assert w[..|s.written|] == h.log[..|s.written|];
    }
  }

  /** HTTP/1.0 sorts before HTTP/1.1, which does not sort before itself. */
  lemma ProtocolOrder()
    ensures StrLess("HTTP/1.0", "HTTP/1.1")
    ensures !StrLess("HTTP/1.1", "HTTP/1.1")
  {
    assert "HTTP/1.0" == "HTTP/1." + "0" && "HTTP/1.1" == "HTTP/1." + "1";
    StrLessPrepend("HTTP/1.", "0", "1");
    StrLessIrreflexive("HTTP/1.1");
  }

  /** The code of a status that starts with digits and a space. */
  lemma StatusCodeOf(status: string, n: nat)
    requires n < |status| && status[n] == ' ' && DecimalDigits(status[..n])
    ensures StatusCode(status) == Some(DecimalValue(status[..n]))
  {
    var digits := status[..n];
    forall k | 0 <= k < |digits| ensures digits[k] != ' ' {
      assert IsDigit(digits[k]) || digits[k] == '_';
    }
    FirstWord(status, n);
    DigitsParse(digits);
  }

  /** The piece before the first space. */
  lemma FirstWord(status: string, n: nat)
    requires n < |status| && status[n] == ' ' && Lacks(status[..n], ' ')
    ensures Split(status, " ")[0] == status[..n]
  {
    var digits, y := status[..n], status[n..];
    assert status == digits + y;
    SplitPrefixLacking(digits, ' ', y);
    assert y[..1] == [' '];
    assert Split(y, [' ']) == [""] + Split(y[1..], [' ']);
  }

  /** Digits with no surrounding space parse to their value. */
  lemma DigitsParse(digits: string)
    requires DecimalDigits(digits)
    ensures PyInt(digits) == Some(DecimalValue(digits))
  {
    assert !IsSpace(digits[0]) && !IsSpace(digits[|digits| - 1]);
    assert TrimLeft(digits) == digits;
    assert Strip(digits) == digits;
  }
  /** `int(str(n))` is `n`: the SERVER_PORT that `connection_made` writes reads back as the port. */
  lemma DecimalStringParses(n: nat)
    ensures PyInt(DecimalString(n)) == Some(n)
  {
    DigitsParse(DecimalString(n));
  }


  /** The values of the three-digit codes below. */
  lemma CodeValues()
    ensures DecimalValue("408") == 408
    ensures DecimalValue("414") == 414
    ensures DecimalValue("500") == 500
    ensures DecimalValue("501") == 501
    ensures DecimalValue("400") == 400
    ensures DecimalValue("505") == 505
  {
    assert ""[..0] == "";
    assert "408"[..2] == "40" && "40"[..1] == "4";
    assert "414"[..2] == "41" && "41"[..1] == "4";
    assert "500"[..2] == "50" && "50"[..1] == "5";
    assert "501"[..2] == "50" && "50"[..1] == "5";
    assert "400"[..2] == "40" && "40"[..1] == "4";
    assert "505"[..2] == "50" && "50"[..1] == "5";
  }

  /** The status codes the connection itself answers with. */
  lemma TimeoutCode()
    ensures StatusCode("408 Request Timeout") == Some(408)
  {
    var status := "408 Request Timeout";
    assert status[..3] == "408";
    StatusCodeOf(status, 3);
    CodeValues();
  }

  lemma TooLongCode()
    ensures StatusCode("414 Request Too Long") == Some(414)
  {
    var status := "414 Request Too Long";
    assert status[..3] == "414";
    StatusCodeOf(status, 3);
    CodeValues();
  }

  lemma InternalErrorCode()
    ensures StatusCode("500 Internal Server Error") == Some(500)
  {
    var status := "500 Internal Server Error";
    assert status[..3] == "500";
    StatusCodeOf(status, 3);
    CodeValues();
  }

  lemma NotImplementedCode()
    ensures StatusCode("501 Not Implemented") == Some(501)
  {
    var status := "501 Not Implemented";
    assert status[..3] == "501";
    StatusCodeOf(status, 3);
    CodeValues();
  }

  lemma BadRequestCode()
    ensures StatusCode("400 Bad Request") == Some(400)
  {
    var status := "400 Bad Request";
    assert status[..3] == "400";
    StatusCodeOf(status, 3);
    CodeValues();
  }

  lemma VersionCode()
    ensures StatusCode("505 HTTP Version Not Supported") == Some(505)
  {
    var status := "505 HTTP Version Not Supported";
    assert status[..3] == "505";
    StatusCodeOf(status, 3);
    CodeValues();
  }

  /** Every error `parse_environ` reports is answered with a code of 400 or more. */
  lemma ErrorStatusCode(e: HeadError)
    ensures StatusCode(ErrorStatus(e)).Some? && StatusCode(ErrorStatus(e)).value >= 400
  {
    match e
    case RequestTooLong => TooLongCode();
    case VersionNotSupported => VersionCode();
    case BadRequest => BadRequestCode();
    case Malformed => InternalErrorCode();
  }

  /**
   * An error answer from the connection itself: the status line and the blank line
   * are written, the timer is cancelled and the transport is closed.
   */
  lemma ErrorAnswer(s: ConnState, status: string)
    requires StatusCode(status).Some? && StatusCode(status).value >= 400
    requires s.environ.Some? && "SERVER_PROTOCOL" in s.environ.value.vars
    requires Latin1(StatusLine(s.environ.value.vars["SERVER_PROTOCOL"], status))
    ensures Response(s, status, [], []) ==
              Step(s.(timeout := 0, timerPending := false, closed := true,
                      written := s.written + [StatusLine(s.environ.value.vars["SERVER_PROTOCOL"], status), "\r\n"]),
                   false)
  {
    ResponseOpeningSpec(s.environ, status);
    ResponseSpec(s, status, [], []);
    var line := StatusLine(s.environ.value.vars["SERVER_PROTOCOL"], status);
    assert !AsksToClose([]);
    assert s.written + [line] + HeaderLines([]) + ["\r\n"] + [] == s.written + [line, "\r\n"];
  }

  // ---------------------------------------------------------------------------
  // connection_made and connection_timeout
  // ---------------------------------------------------------------------------

  /**
   * At most one timer: setting the timeout cancels the pending one, so a later
   * setting replaces an earlier one, and 0 leaves none pending.
   */
  lemma SetTimeoutLast(s: ConnState, a: nat, b: nat)
    ensures SetTimeout(SetTimeout(s, a), b) == SetTimeout(s, b)
    ensures !SetTimeout(s, 0).timerPending && (b > 0 ==> SetTimeout(s, b).timerPending && SetTimeout(s, b).timeout == b)
  {
  }

  /**
   * `connection_made` keeps a `SERVER_NAME` and a `SERVER_PORT` the defaults already
   * have and otherwise takes them from the local address; `REMOTE_ADDR` is always
   * the peer's host; the first-request timer is armed.
   */
  lemma ConnectionMadeSpec(s: ConnState, localHost: string, localPort: nat, remoteHost: string)
    ensures var t := ConnectionMade(s, localHost, localPort, remoteHost);
            && t.connected && t.timeout == FirstTimeout && t.timerPending
            && t.defaults.Keys == s.defaults.Keys + {"SERVER_NAME", "SERVER_PORT", "REMOTE_ADDR"}
            && t.defaults["REMOTE_ADDR"] == remoteHost
            && t.defaults["SERVER_NAME"] == (if "SERVER_NAME" in s.defaults then s.defaults["SERVER_NAME"] else localHost)
            && t.defaults["SERVER_PORT"] == (if "SERVER_PORT" in s.defaults then s.defaults["SERVER_PORT"] else DecimalString(localPort))
            && (forall k :: k in s.defaults && k != "REMOTE_ADDR" ==> t.defaults[k] == s.defaults[k])
            && t.environ == s.environ && t.written == s.written && t.closed == s.closed
  {
  }

  /**
   * When the timer fires the timer is no longer pending and the transport ends
   * closed: at once when no request is being read, after a `408 Request Timeout`
   * answer when one is.
   */
  lemma TimeoutCloses(s: ConnState)
    ensures var r := ConnectionTimeout(s);
            && !r.state.timerPending && r.state.dispatched == s.dispatched
            && (!r.raised ==> r.state.closed)
            && (s.environ.None? ==> !r.raised && r.state.written == s.written)
            && (s.environ.Some? && "SERVER_PROTOCOL" in s.environ.value.vars &&
                Latin1(StatusLine(s.environ.value.vars["SERVER_PROTOCOL"], "408 Request Timeout")) ==>
                  !r.raised &&
                  r.state.written == s.written + [StatusLine(s.environ.value.vars["SERVER_PROTOCOL"], "408 Request Timeout"), "\r\n"])
  {
    var s1 := s.(timerPending := false);
    ResponseSpec(s1, "408 Request Timeout", [], []);
    if s.environ.Some? && "SERVER_PROTOCOL" in s.environ.value.vars &&
       Latin1(StatusLine(s.environ.value.vars["SERVER_PROTOCOL"], "408 Request Timeout")) {
      TimeoutCode();
      ErrorAnswer(s1, "408 Request Timeout");
    }
  }

  // ---------------------------------------------------------------------------
  // body_chunk_received
  // ---------------------------------------------------------------------------

  /** The bytes of `wsgi.input` so far. */
  function InputOf(env: Environ): string
  {
    if env.input.Some? then env.input.value else ""
  }

  /** The environ has a `CONTENT_LENGTH` that `int()` reads as `n`. */
  predicate HasLength(env: Environ, n: int)
  {
    "CONTENT_LENGTH" in env.vars && PyInt(env.vars["CONTENT_LENGTH"]) == Some(n)
  }

  /**
   * With a readable `CONTENT_LENGTH`, a chunk is appended to the input, and the body
   * is complete exactly when the input has reached the declared length; completing
   * it cancels the timer.
   */
  lemma BodyChunkCounts(s: ConnState, data: string, n: int)
    requires s.environ.Some? && !s.environ.value.complete && HasLength(s.environ.value, n)
    ensures var r := BodyChunk(s, data);
            var env := r.state.environ.value;
            && !r.raised && env.vars == s.environ.value.vars
            && env.input == Some(InputOf(s.environ.value) + data)
            && env.complete == (|InputOf(s.environ.value) + data| >= n)
            && (env.complete ==> r.state.timeout == 0 && !r.state.timerPending)
            && (!env.complete ==> r.state == s.(environ := r.state.environ))
            && r.state == s.(environ := r.state.environ, timeout := r.state.timeout, timerPending := r.state.timerPending)
  {
  }

  /** Without `CONTENT_LENGTH` the chunk is dropped and the body counts as complete. */
  lemma BodyChunkDropped(s: ConnState, data: string)
    requires s.environ.Some? && !s.environ.value.complete && "CONTENT_LENGTH" !in s.environ.value.vars
    ensures var r := BodyChunk(s, data);
            && !r.raised && r.state.environ.value.complete
            && r.state.environ.value.input == Some(InputOf(s.environ.value))
            && r.state.timeout == 0 && !r.state.timerPending
  {
  }

  /** A chunk for a body that is already complete raises and changes nothing. */
  lemma BodyChunkAfterComplete(s: ConnState, data: string)
    requires s.environ.Some? && s.environ.value.complete
    ensures BodyChunk(s, data) == Step(s, true)
  {
  }

  /** Data arriving after the head goes to the body; a failure there is answered with 500. */
  lemma DataReceivedBody(s: ConnState, handler: Handler, data: string)
    requires s.environ.Some? && s.headerReceived
    ensures var b := BodyChunk(s, data);
            DataReceived(s, handler, data) ==
              if b.raised then Response(b.state, "500 Internal Server Error", [], []) else Step(b.state, false)
  {
  }

  /**
   * A chunk arriving once the body is complete fails the assert of
   * `body_chunk_received`, and is answered with 500 and the connection closed.
   */
  lemma ChunkAfterComplete(s: ConnState, handler: Handler, data: string)
    requires s.environ.Some? && s.headerReceived && s.environ.value.complete
    requires "SERVER_PROTOCOL" in s.environ.value.vars
    requires Latin1(StatusLine(s.environ.value.vars["SERVER_PROTOCOL"], "500 Internal Server Error"))
    ensures DataReceived(s, handler, data) ==
              Step(s.(timeout := 0, timerPending := false, closed := true,
                      written := s.written + [StatusLine(s.environ.value.vars["SERVER_PROTOCOL"], "500 Internal Server Error"), "\r\n"]),
                   false)
  {
    BodyChunkAfterComplete(s, data);
    DataReceivedBody(s, handler, data);
    InternalErrorCode();
    ErrorAnswer(s, "500 Internal Server Error");
  }

  /** A chunk that keeps the body below its declared length is appended and nothing else changes. */
  lemma BodyPartial(s: ConnState, handler: Handler, data: string, n: int)
    requires s.environ.Some? && s.headerReceived && !s.environ.value.complete && HasLength(s.environ.value, n)
    requires |InputOf(s.environ.value) + data| < n
    ensures DataReceived(s, handler, data) ==
              Step(s.(environ := Some(s.environ.value.(input := Some(InputOf(s.environ.value) + data)))), false)
  {
    DataReceivedBody(s, handler, data);
    BodyChunkCounts(s, data, n);
  }

  /** `DataReceived` applied to each chunk in turn. */
  function Feed(s: ConnState, handler: Handler, chunks: seq<string>): ConnState
    decreases |chunks|
  {
    if |chunks| == 0 then s else Feed(DataReceived(s, handler, chunks[0]).state, handler, chunks[1..])
  }

  /**
   * Chunks that keep the body below its declared length are appended to the input
   * in order; nothing is written and the timer is left alone.
   */
  lemma {:induction false} FeedBody(s: ConnState, handler: Handler, chunks: seq<string>, n: int)
    requires s.environ.Some? && s.headerReceived && !s.environ.value.complete && HasLength(s.environ.value, n)
    requires |InputOf(s.environ.value) + Concat(chunks)| < n
    ensures Feed(s, handler, chunks) ==
              if |chunks| == 0 then s
              else s.(environ := Some(s.environ.value.(input := Some(InputOf(s.environ.value) + Concat(chunks)))))
    decreases |chunks|
  {
    if |chunks| > 0 {
      var env := s.environ.value;
      assert |InputOf(env) + chunks[0]| <= |InputOf(env) + Concat(chunks)|;
      BodyPartial(s, handler, chunks[0], n);
      var s1 := s.(environ := Some(env.(input := Some(InputOf(env) + chunks[0]))));
      assert (InputOf(env) + chunks[0]) + Concat(chunks[1..]) == InputOf(env) + Concat(chunks);
      FeedBody(s1, handler, chunks[1..], n);
      if |chunks| == 1 {
        assert Concat(chunks) == chunks[0] + "";
        assert chunks[0] + "" == chunks[0];
      }
    }
  }

  /** The chunk that reaches the declared length completes the body and cancels the timer. */
  lemma BodyCompletes(s: ConnState, handler: Handler, data: string, n: int)
    requires s.environ.Some? && s.headerReceived && !s.environ.value.complete && HasLength(s.environ.value, n)
    requires |InputOf(s.environ.value) + data| >= n
    ensures DataReceived(s, handler, data) ==
              Step(s.(environ := Some(s.environ.value.(input := Some(InputOf(s.environ.value) + data), complete := true)),
                      timeout := 0, timerPending := false), false)
  {
    DataReceivedBody(s, handler, data);
    BodyChunkCounts(s, data, n);
  }

  // ---------------------------------------------------------------------------
  // data_received while the head is read
  // ---------------------------------------------------------------------------

  /** The state `data_received` works on: a new request is started when there is none. */
  function Started(s: ConnState): ConnState
  {
    if s.environ.None? then StartRequest(s) else s
  }

  /** The environ a chunk of a head is read into. */
  function Current(s: ConnState): Environ
  {
    if s.environ.None? then Environ(s.defaults, false, None) else s.environ.value
  }

  /** Whether `data_received` is still looking for the end of a head. */
  predicate ReadingHead(s: ConnState)
  {
    s.environ.None? || !s.headerReceived
  }

  lemma StartedSpec(s: ConnState)
    requires ReadingHead(s)
    ensures Started(s).environ == Some(Current(s)) && !Started(s).headerReceived
    ensures Started(s).written == s.written && Started(s).closed == s.closed && Started(s).dispatched == s.dispatched
  {
  }

  /**
   * A chunk that does not hold the end of a head replaces the buffer, whatever an
   * earlier chunk left there, and nothing else happens.
   */
  lemma PartialHead(s: ConnState, handler: Handler, data: string)
    requires ReadingHead(s) && |data| <= MaxRequestSize && Find(data, HeadEnd).None?
    ensures DataReceived(s, handler, data) == Step(Started(s).(buff := data), false)
  {
    StartedSpec(s);
  }

  /**
   * A head split over two chunks is never parsed: each chunk is searched on its
   * own, so the end of the head is missed even when it straddles the two.
   */
  lemma HeadAcrossChunks(s: ConnState, handler: Handler, d1: string, d2: string)
    requires ReadingHead(s)
    requires |d1| <= MaxRequestSize && Find(d1, HeadEnd).None?
    requires |d2| <= MaxRequestSize && Find(d2, HeadEnd).None?
    ensures var t := DataReceived(DataReceived(s, handler, d1).state, handler, d2).state;
            && !t.headerReceived && t.buff == d2
            && t.written == s.written && t.dispatched == s.dispatched && !t.closed == !s.closed
  {
    PartialHead(s, handler, d1);
    var s1 := Started(s).(buff := d1);
    StartedSpec(s);
    PartialHead(s1, handler, d2);
  }

  /** A chunk longer than the largest head is answered with `414 Request Too Long`. */
  lemma HeadTooLong(s: ConnState, handler: Handler, data: string)
    requires ReadingHead(s) && |data| > MaxRequestSize
    requires "SERVER_PROTOCOL" in Current(s).vars
    requires Latin1(StatusLine(Current(s).vars["SERVER_PROTOCOL"], "414 Request Too Long"))
    ensures DataReceived(s, handler, data) ==
              Step(Started(s).(buff := data, timeout := 0, timerPending := false, closed := true,
                               written := s.written + [StatusLine(Current(s).vars["SERVER_PROTOCOL"], "414 Request Too Long"), "\r\n"]),
                   false)
  {
    StartedSpec(s);
    TooLongCode();
    ErrorAnswer(Started(s).(buff := data), "414 Request Too Long");
  }

  /**
   * A complete head that `parse_environ` rejects is answered with the status of its
   * error and the connection closed; nothing is handed to the request handler.
   */
  lemma HeadRejected(s: ConnState, handler: Handler, data: string, e: HeadError)
    requires ReadingHead(s) && |data| <= MaxRequestSize && Find(data, HeadEnd).Some?
    requires ParseEnvironSpec(data[..Find(data, HeadEnd).value + 4]) == Err(e)
    requires "SERVER_PROTOCOL" in Current(s).vars
    requires Latin1(StatusLine(Current(s).vars["SERVER_PROTOCOL"], ErrorStatus(e)))
    ensures DataReceived(s, handler, data) ==
              Step(Started(s).(buff := data, headerReceived := true, timeout := 0, timerPending := false, closed := true,
                               written := s.written + [StatusLine(Current(s).vars["SERVER_PROTOCOL"], ErrorStatus(e)), "\r\n"]),
                   false)
  {
    var s1 := Started(s).(buff := data, headerReceived := true);
    RejectedAttempt(s, handler, data, e);
    ErrorStatusCode(e);
    ErrorAnswer(s1, ErrorStatus(e));
  }

  /**
   * The first chunk on a connection made with the class default environ: one too
   * long for a head is answered on `HTTP/1.0` with 414 and the connection closed.
   */
  lemma FirstChunkTooLong(localHost: string, localPort: nat, remoteHost: string, handler: Handler, data: string)
    requires |data| > MaxRequestSize
    ensures var r := DataReceived(ConnectionMade(Initial(DefaultEnviron), localHost, localPort, remoteHost), handler, data);
            && !r.raised && r.state.closed && !r.state.timerPending
            && r.state.written == [StatusLine("HTTP/1.0", "414 Request Too Long"), "\r\n"]
            && r.state.dispatched == []
  {
    DefaultProtocol(localHost, localPort, remoteHost);
    TooLongOnDefault(ConnectionMade(Initial(DefaultEnviron), localHost, localPort, remoteHost), handler, data);
  }

  /**
   * The same for a first head that `parse_environ` rejects: it is answered on
   * `HTTP/1.0` with the status of its error, before any of its variables are merged.
   */
  lemma FirstHeadRejected(localHost: string, localPort: nat, remoteHost: string, handler: Handler, data: string, e: HeadError)
    requires |data| <= MaxRequestSize && Find(data, HeadEnd).Some?
    requires ParseEnvironSpec(data[..Find(data, HeadEnd).value + 4]) == Err(e)
    ensures var r := DataReceived(ConnectionMade(Initial(DefaultEnviron), localHost, localPort, remoteHost), handler, data);
            && !r.raised && r.state.closed && !r.state.timerPending
            && r.state.written == [StatusLine("HTTP/1.0", ErrorStatus(e)), "\r\n"]
            && r.state.dispatched == []
  {
    DefaultProtocol(localHost, localPort, remoteHost);
    RejectedOnDefault(ConnectionMade(Initial(DefaultEnviron), localHost, localPort, remoteHost), handler, data, e);
  }

  /** A connection made with the class default environ reads its first head into an `HTTP/1.0` environ. */
  lemma DefaultProtocol(localHost: string, localPort: nat, remoteHost: string)
    ensures var s := ConnectionMade(Initial(DefaultEnviron), localHost, localPort, remoteHost);
            OnDefault(s)
  {
  }

  /** Reading a first head, with nothing written or dispatched yet, into an `HTTP/1.0` environ. */
  predicate OnDefault(s: ConnState)
  {
    && ReadingHead(s) && s.written == [] && s.dispatched == []
    && "SERVER_PROTOCOL" in Current(s).vars && Current(s).vars["SERVER_PROTOCOL"] == "HTTP/1.0"
  }

  lemma TooLongOnDefault(s: ConnState, handler: Handler, data: string)
    requires OnDefault(s) && |data| > MaxRequestSize
    ensures var r := DataReceived(s, handler, data);
            && !r.raised && r.state.closed && !r.state.timerPending
            && r.state.written == [StatusLine("HTTP/1.0", "414 Request Too Long"), "\r\n"]
            && r.state.dispatched == []
  {
    ErrorStatusLatin1(RequestTooLong);
    StartedSpec(s);
    HeadTooLong(s, handler, data);
  }

  lemma RejectedOnDefault(s: ConnState, handler: Handler, data: string, e: HeadError)
    requires OnDefault(s) && |data| <= MaxRequestSize && Find(data, HeadEnd).Some?
    requires ParseEnvironSpec(data[..Find(data, HeadEnd).value + 4]) == Err(e)
    ensures var r := DataReceived(s, handler, data);
            && !r.raised && r.state.closed && !r.state.timerPending
            && r.state.written == [StatusLine("HTTP/1.0", ErrorStatus(e)), "\r\n"]
            && r.state.dispatched == []
  {
    ErrorStatusLatin1(e);
    StartedSpec(s);
    HeadRejected(s, handler, data, e);
  }

  /** Every error status line on `HTTP/1.0` can be encoded. */
  lemma ErrorStatusLatin1(e: HeadError)
    ensures Latin1(StatusLine("HTTP/1.0", ErrorStatus(e)))
  {
    ProtocolLatin1();
    match e
    case RequestTooLong => TooLongLatin1();
    case VersionNotSupported => VersionLatin1();
    case BadRequest => BadRequestLatin1();
    case Malformed => InternalErrorLatin1();
    Latin1Concat("HTTP/1.0 ", ErrorStatus(e));
    Latin1Concat("HTTP/1.0 " + ErrorStatus(e), "\r\n");
  }

  lemma ProtocolLatin1()
    ensures Latin1("HTTP/1.0 ") && Latin1("\r\n")
  {
  }

  lemma TooLongLatin1()
    ensures Latin1("414 Request Too Long")
  {
  }

  lemma VersionLatin1()
    ensures Latin1("505 HTTP Version Not Supported")
  {
  }

  lemma BadRequestLatin1()
    ensures Latin1("400 Bad Request")
  {
  }

  lemma InternalErrorLatin1()
    ensures Latin1("500 Internal Server Error")
  {
  }

  lemma Latin1Concat(a: string, b: string)
    requires Latin1(a) && Latin1(b)
    ensures Latin1(a + b)
  {
    forall k | 0 <= k < |a + b| ensures (a + b)[k] as int < 256 {
      if k >= |a| {
        assert (a + b)[k] == b[k - |a|];
      }
    }
  }

  lemma RejectedAttempt(s: ConnState, handler: Handler, data: string, e: HeadError)
    requires ReadingHead(s) && |data| <= MaxRequestSize && Find(data, HeadEnd).Some?
    requires ParseEnvironSpec(data[..Find(data, HeadEnd).value + 4]) == Err(e)
    ensures var s1 := Started(s).(buff := data, headerReceived := true);
            && s1.environ == Some(Current(s))
            && DataReceived(s, handler, data) == Response(s1, ErrorStatus(e), [], [])
  {
    StartedSpec(s);
    var s0 := Started(s);
    var s1 := s0.(buff := data, headerReceived := true);
    ScanRejected(s0, handler, data, e);
    AnswerRejected(s1, e);
  }

  lemma ScanRejected(s: ConnState, handler: Handler, data: string, e: HeadError)
    requires s.environ.Some? && !s.headerReceived && |data| <= MaxRequestSize && Find(data, HeadEnd).Some?
    requires ParseEnvironSpec(data[..Find(data, HeadEnd).value + 4]) == Err(e)
    ensures Receive(s, handler, data) == Attempt(s.(buff := data, headerReceived := true), HeadOutcome(e))
  {
    var i := Find(data, HeadEnd).value;
    ScanFound(s, handler, data);
    FoundRejected(s.(buff := data, headerReceived := true), handler, data[..i + 4], data[i + 4..], e);
  }

  /** A chunk holding the end of a head hands the head and what follows it to `HeadFound`. */
  lemma ScanFound(s: ConnState, handler: Handler, data: string)
    requires s.environ.Some? && |data| <= MaxRequestSize && Find(data, HeadEnd).Some?
    ensures var i := Find(data, HeadEnd).value;
            ReceiveHead(s, handler, data) == HeadFound(s.(buff := data, headerReceived := true), handler, data[..i + 4], data[i + 4..])
  {
    assert ReceiveHead(s, handler, data) == ScanHead(s.(buff := data), handler, data);
  }

  lemma FoundRejected(s: ConnState, handler: Handler, head: string, rest: string, e: HeadError)
    requires s.environ.Some? && ParseEnvironSpec(head) == Err(e)
    ensures HeadFound(s, handler, head, rest) == Attempt(s, HeadOutcome(e))
  {
  }

  lemma FoundParsed(s: ConnState, handler: Handler, head: string, rest: string, vars: map<string, string>)
    requires s.environ.Some? && ParseEnvironSpec(head) == Ok(vars)
    ensures HeadFound(s, handler, head, rest) == HeadParsed(s.(environ := Some(s.environ.value.(vars := s.environ.value.vars + vars))), handler, rest)
  {
  }

  lemma AnswerRejected(s: ConnState, e: HeadError)
    ensures Answer(Attempt(s, HeadOutcome(e))) == Response(s, ErrorStatus(e), [], [])
  {
  }

  /** The environ a parsed head gives: its variables merged over the current ones. */
  function Merged(s: ConnState, vars: map<string, string>): Environ
  {
    Current(s).(vars := Current(s).vars + vars)
  }

  /** The head was found and parsed: what follows is the first body chunk and dispatch. */
  lemma ScanParsed(s: ConnState, handler: Handler, data: string, vars: map<string, string>)
    requires s.environ.Some? && |data| <= MaxRequestSize && Find(data, HeadEnd).Some?
    requires ParseEnvironSpec(data[..Find(data, HeadEnd).value + 4]) == Ok(vars)
    ensures ReceiveHead(s, handler, data) ==
              HeadParsed(s.(buff := data, headerReceived := true,
                            environ := Some(s.environ.value.(vars := s.environ.value.vars + vars))),
                         handler, data[Find(data, HeadEnd).value + 4..])
  {
    ScanFound(s, handler, data);
    FoundParsed(s.(buff := data, headerReceived := true), handler,
                data[..Find(data, HeadEnd).value + 4], data[Find(data, HeadEnd).value + 4..], vars);
  }

  lemma ParsedAttempt(s: ConnState, handler: Handler, data: string, vars: map<string, string>)
    requires ReadingHead(s) && |data| <= MaxRequestSize && Find(data, HeadEnd).Some?
    requires ParseEnvironSpec(data[..Find(data, HeadEnd).value + 4]) == Ok(vars)
    ensures DataReceived(s, handler, data) ==
              Answer(HeadParsed(Started(s).(buff := data, headerReceived := true, environ := Some(Merged(s, vars))),
                                handler, data[Find(data, HeadEnd).value + 4..]))
  {
    StartedSpec(s);
    ScanParsed(Started(s), handler, data, vars);
    ReceivedAnswer(s, handler, data);
  }

  /** `data_received` answers what the `try` block did on the started state. */
  lemma ReceivedAnswer(s: ConnState, handler: Handler, data: string)
    ensures Started(s).environ.Some?
    ensures DataReceived(s, handler, data) == Answer(Receive(Started(s), handler, data))
    ensures !Started(s).headerReceived ==> Receive(Started(s), handler, data) == ReceiveHead(Started(s), handler, data)
  {
  }

  lemma AnswerDone(t: ConnState)
    ensures Answer(Attempt(t, Done)) == Step(t, false)
  {
  }

  /** A step that raised nothing is answered as it is. */
  lemma AnswerStep(r: Step)
    requires !r.raised
    ensures Answer(FromStep(r)) == r
  {
  }

  /** Without `CONTENT_TYPE` the request is complete and goes straight to the handler. */
  lemma ParsedWithoutBody(s: ConnState, handler: Handler, rest: string)
    requires s.environ.Some? && "CONTENT_TYPE" !in s.environ.value.vars
    ensures var env := s.environ.value.(complete := true);
            HeadParsed(s, handler, rest) == FromStep(Dispatch(s.(environ := Some(env)), handler))
  {
  }

  /**
   * A head without `CONTENT_TYPE` marks the request complete and hands the environ
   * to the handler; a coroutine handler answers later, so nothing is written and
   * the request timer keeps running.
   */
  lemma HeadWithoutBody(s: ConnState, data: string, vars: map<string, string>)
    requires ReadingHead(s) && |data| <= MaxRequestSize && Find(data, HeadEnd).Some?
    requires ParseEnvironSpec(data[..Find(data, HeadEnd).value + 4]) == Ok(vars)
    requires "CONTENT_TYPE" !in Merged(s, vars).vars
    ensures var env := Merged(s, vars).(complete := true);
            DataReceived(s, Deferred, data) ==
              Step(Started(s).(buff := data, headerReceived := true, environ := Some(env),
                               dispatched := s.dispatched + [env]), false)
  {
    ParsedAttempt(s, Deferred, data, vars);
    var s1 := Started(s).(buff := data, headerReceived := true, environ := Some(Merged(s, vars)));
    StartedSpec(s);
    ParsedWithoutBody(s1, Deferred, data[Find(data, HeadEnd).value + 4..]);
    var env := Merged(s, vars).(complete := true);
    AnswerStep(Dispatch(s1.(environ := Some(env)), Deferred));
  }

  /**
   * With the inherited handler the same head is answered at once with
   * `501 Not Implemented`, and the connection is closed.
   */
  lemma HeadNotImplemented(s: ConnState, data: string, vars: map<string, string>)
    requires ReadingHead(s) && |data| <= MaxRequestSize && Find(data, HeadEnd).Some?
    requires ParseEnvironSpec(data[..Find(data, HeadEnd).value + 4]) == Ok(vars)
    requires "CONTENT_TYPE" !in Merged(s, vars).vars && "SERVER_PROTOCOL" in Merged(s, vars).vars
    requires Latin1(StatusLine(Merged(s, vars).vars["SERVER_PROTOCOL"], "501 Not Implemented"))
    ensures var env := Merged(s, vars).(complete := true);
            DataReceived(s, NotImplemented, data) ==
              Step(Started(s).(buff := data, headerReceived := true, environ := Some(env),
                               dispatched := s.dispatched + [env], timeout := 0, timerPending := false, closed := true,
                               written := s.written + [StatusLine(env.vars["SERVER_PROTOCOL"], "501 Not Implemented"), "\r\n"]),
                   false)
  {
    ParsedAttempt(s, NotImplemented, data, vars);
    var s1 := Started(s).(buff := data, headerReceived := true, environ := Some(Merged(s, vars)));
    StartedSpec(s);
    ParsedWithoutBody(s1, NotImplemented, data[Find(data, HeadEnd).value + 4..]);
    var env := Merged(s, vars).(complete := true);
    var t := s1.(environ := Some(env), dispatched := s.dispatched + [env]);
    NotImplementedCode();
    ErrorAnswer(t, "501 Not Implemented");
    AnswerStep(Dispatch(s1.(environ := Some(env)), NotImplemented));
  }

  /** The request asks for an interim `100 (Continue)` reply. */
  predicate ExpectsContinue(vars: map<string, string>)
  {
    "HTTP_EXPECT" in vars && vars["HTTP_EXPECT"] == "100-continue"
  }

  /** What `Expect` does once the first body chunk is in. */
  function Prepared(s: ConnState): ConnState
    requires s.environ.Some?
  {
    if ExpectsContinue(s.environ.value.vars) then ExpectContinue(s) else SetTimeout(s, 0)
  }

  /** With `CONTENT_TYPE` the first body chunk is taken before the handler runs. */
  lemma ParsedWithBody(s: ConnState, handler: Handler, rest: string)
    requires s.environ.Some? && "CONTENT_TYPE" in s.environ.value.vars && !BodyChunk(s, rest).raised
    ensures HeadParsed(s, handler, rest) == FromStep(Dispatch(Prepared(BodyChunk(s, rest).state), handler))
  {
  }

  /** The first body chunk and `Expect`, for a coroutine handler. */
  lemma ParsedBody(s: ConnState, rest: string, n: int)
    requires s.environ.Some? && !s.environ.value.complete && "CONTENT_TYPE" in s.environ.value.vars
    requires HasLength(s.environ.value, n)
    ensures var input := InputOf(s.environ.value) + rest;
            var env := s.environ.value.(input := Some(input), complete := |input| >= n);
            var waits := ExpectsContinue(env.vars) && !env.complete;
            HeadParsed(s, Deferred, rest) ==
              Attempt(s.(environ := Some(env), dispatched := s.dispatched + [env],
                         timeout := if waits then s.timeout else 0,
                         timerPending := if waits then s.timerPending else false,
                         written := if ExpectsContinue(env.vars) then s.written + [ContinueReply] else s.written),
                      Done)
  {
    BodyChunkCounts(s, rest, n);
    ParsedWithBody(s, Deferred, rest);
  }

  /**
   * A head with `CONTENT_TYPE` and a readable `CONTENT_LENGTH` takes the rest of the
   * chunk as the first part of the body and then hands the environ to a coroutine
   * handler. The request timer is cancelled unless the request expects
   * `100 (Continue)` and the body is still incomplete, and only that reply is written.
   */
  lemma HeadWithBody(s: ConnState, data: string, vars: map<string, string>, n: int)
    requires ReadingHead(s) && |data| <= MaxRequestSize && Find(data, HeadEnd).Some?
    requires ParseEnvironSpec(data[..Find(data, HeadEnd).value + 4]) == Ok(vars)
    requires !Current(s).complete && "CONTENT_TYPE" in Merged(s, vars).vars && HasLength(Merged(s, vars), n)
    ensures var rest := data[Find(data, HeadEnd).value + 4..];
            var input := InputOf(Merged(s, vars)) + rest;
            var env := Merged(s, vars).(input := Some(input), complete := |input| >= n);
            var waits := ExpectsContinue(env.vars) && !env.complete;
            DataReceived(s, Deferred, data) ==
              Step(Started(s).(buff := data, headerReceived := true, environ := Some(env), dispatched := s.dispatched + [env],
                               timeout := if waits then Started(s).timeout else 0,
                               timerPending := if waits then Started(s).timerPending else false,
                               written := if ExpectsContinue(env.vars) then s.written + [ContinueReply] else s.written),
                   false)
  {
    ParsedAttempt(s, Deferred, data, vars);
    StartedSpec(s);
    var s1 := Started(s).(buff := data, headerReceived := true, environ := Some(Merged(s, vars)));
    var rest := data[Find(data, HeadEnd).value + 4..];
    ParsedBody(s1, rest, n);
    AnswerDone(HeadParsed(s1, Deferred, rest).state);
    var input := InputOf(Merged(s, vars)) + rest;
    var env := Merged(s, vars).(input := Some(input), complete := |input| >= n);
    WithBodyState(s, data, vars, env, ExpectsContinue(env.vars) && !env.complete, ExpectsContinue(env.vars));
  }

  /** The state after the first body chunk, seen from the state before the request started. */
  lemma WithBodyState(s: ConnState, data: string, vars: map<string, string>, env: Environ, waits: bool, continues: bool)
    requires ReadingHead(s)
    ensures var s1 := Started(s).(buff := data, headerReceived := true, environ := Some(Merged(s, vars)));
            s1.(environ := Some(env), dispatched := s1.dispatched + [env],
                timeout := if waits then s1.timeout else 0, timerPending := if waits then s1.timerPending else false,
                written := if continues then s1.written + [ContinueReply] else s1.written) ==
            Started(s).(buff := data, headerReceived := true, environ := Some(env), dispatched := s.dispatched + [env],
                        timeout := if waits then Started(s).timeout else 0,
                        timerPending := if waits then Started(s).timerPending else false,
                        written := if continues then s.written + [ContinueReply] else s.written)
  {
    StartedSpec(s);
  }

  // ---------------------------------------------------------------------------
  // What every routine keeps
  // ---------------------------------------------------------------------------

  predicate Prefix<T(==)>(a: seq<T>, b: seq<T>)
  {
    |a| <= |b| && b[..|a|] == a
  }

  /** A pending timer was armed with a positive duration. */
  predicate TimerArmed(s: ConnState)
  {
    s.timerPending ==> s.timeout > 0
  }

  /**
   * From `s` to `t` the transport log and the dispatched environs only grow, a
   * closed transport stays closed, the defaults are untouched, and a pending timer
   * still has a positive duration.
   */
  predicate Progress(s: ConnState, t: ConnState)
  {
    && t.connected == s.connected && t.defaults == s.defaults
    && Prefix(s.written, t.written) && (s.closed ==> t.closed) && Prefix(s.dispatched, t.dispatched)
    && (TimerArmed(s) ==> TimerArmed(t))
  }

  lemma ProgressTransitive(a: ConnState, b: ConnState, c: ConnState)
    requires Progress(a, b) && Progress(b, c)
    ensures Progress(a, c)
  {
    assert c.written[..|a.written|] == c.written[..|b.written|][..|a.written|];
    assert c.dispatched[..|a.dispatched|] == c.dispatched[..|b.dispatched|][..|a.dispatched|];
  }

  lemma ProgressAppend(s: ConnState, t: ConnState, w: seq<string>, d: seq<Environ>)
    requires t.connected == s.connected && t.defaults == s.defaults
    requires t.written == s.written + w && (s.closed ==> t.closed) && t.dispatched == s.dispatched + d
    requires TimerArmed(s) ==> TimerArmed(t)
    ensures Progress(s, t)
  {
    assert (s.written + w)[..|s.written|] == s.written;
    assert (s.dispatched + d)[..|s.dispatched|] == s.dispatched;
  }

  lemma ResponseProgress(s: ConnState, status: string, headers: seq<(string, string)>, body: seq<string>)
    ensures var t := Response(s, status, headers, body).state;
            Progress(s, t) && t.dispatched == s.dispatched
  {
    ResponseSpec(s, status, headers, body);
    assert s.dispatched[..|s.dispatched|] == s.dispatched;
  }

  lemma BodyChunkProgress(s: ConnState, data: string)
    ensures var t := BodyChunk(s, data).state;
            Progress(s, t) && t.dispatched == s.dispatched
  {
    ProgressAppend(s, BodyChunk(s, data).state, [], []);
  }

  lemma DispatchProgress(s: ConnState, handler: Handler)
    requires s.environ.Some?
    ensures var t := Dispatch(s, handler).state;
            Progress(s, t) && t.dispatched == s.dispatched + [s.environ.value]
  {
    var s1 := s.(dispatched := s.dispatched + [s.environ.value]);
    ProgressAppend(s, s1, [], [s.environ.value]);
    ResponseProgress(s1, "501 Not Implemented", [], []);
    ProgressTransitive(s, s1, Response(s1, "501 Not Implemented", [], []).state);
  }

  /** At most one environ is dispatched between the head and the handler. */
  predicate AtMostOneMore(s: ConnState, t: ConnState)
  {
    |t.dispatched| <= |s.dispatched| + 1
  }

  lemma PreparedProgress(s: ConnState)
    requires s.environ.Some?
    ensures Progress(s, Prepared(s)) && Prepared(s).environ == s.environ && Prepared(s).dispatched == s.dispatched
  {
    var t := Prepared(s);
    ProgressAppend(s, t, t.written[|s.written|..], []);
  }

  lemma DispatchAfter(s: ConnState, t: ConnState, handler: Handler)
    requires t.environ.Some? && Progress(s, t) && t.dispatched == s.dispatched
    ensures var u := Dispatch(t, handler).state;
            Progress(s, u) && AtMostOneMore(s, u)
  {
    DispatchProgress(t, handler);
    ProgressTransitive(s, t, Dispatch(t, handler).state);
  }

  lemma HeadParsedProgress(s: ConnState, handler: Handler, rest: string)
    requires s.environ.Some?
    ensures var t := HeadParsed(s, handler, rest).state;
            Progress(s, t) && AtMostOneMore(s, t)
  {
    if "CONTENT_TYPE" in s.environ.value.vars {
      var b := BodyChunk(s, rest);
      BodyChunkProgress(s, rest);
      if !b.raised {
        ParsedWithBody(s, handler, rest);
        PreparedProgress(b.state);
        ProgressTransitive(s, b.state, Prepared(b.state));
        DispatchAfter(s, Prepared(b.state), handler);
      }
    } else {
      ParsedWithoutBody(s, handler, rest);
      var s1 := s.(environ := Some(s.environ.value.(complete := true)));
      ProgressAppend(s, s1, [], []);
      DispatchAfter(s, s1, handler);
    }
  }

  lemma HeadFoundProgress(s: ConnState, handler: Handler, head: string, rest: string)
    requires s.environ.Some?
    ensures var t := HeadFound(s, handler, head, rest).state;
            Progress(s, t) && AtMostOneMore(s, t)
  {
    var parsed := ParseEnvironSpec(head);
    if parsed.Ok? {
      var s1 := s.(environ := Some(s.environ.value.(vars := s.environ.value.vars + parsed.value)));
      ProgressAppend(s, s1, [], []);
      HeadParsedProgress(s1, handler, rest);
      ProgressTransitive(s, s1, HeadParsed(s1, handler, rest).state);
    } else {
      ProgressAppend(s, s, [], []);
    }
  }

  lemma ReceiveHeadProgress(s: ConnState, handler: Handler, data: string)
    requires s.environ.Some?
    ensures var t := ReceiveHead(s, handler, data).state;
            Progress(s, t) && AtMostOneMore(s, t)
  {
    if |data| <= MaxRequestSize && Find(data, HeadEnd).Some? {
      FoundProgress(s, handler, data);
    } else {
      HeadPending(s, handler, data);
      ProgressAppend(s, s.(buff := data), [], []);
    }
  }

  lemma FoundProgress(s: ConnState, handler: Handler, data: string)
    requires s.environ.Some? && |data| <= MaxRequestSize && Find(data, HeadEnd).Some?
    ensures var t := ReceiveHead(s, handler, data).state;
            Progress(s, t) && AtMostOneMore(s, t)
  {
    var i := Find(data, HeadEnd).value;
    var s2 := s.(buff := data, headerReceived := true);
    var head, rest := data[..i + 4], data[i + 4..];
    var u := HeadFound(s2, handler, head, rest).state;
    ScanFound(s, handler, data);
    HeadFoundProgress(s2, handler, head, rest);
    ProgressThroughBuffer(s, s2, u, ReceiveHead(s, handler, data).state);
  }

  /** Steps that only touch the buffer and the head flag do not count against `Progress`. */
  lemma ProgressThroughBuffer(s: ConnState, s2: ConnState, u: ConnState, t: ConnState)
    requires s2 == s.(buff := s2.buff, headerReceived := s2.headerReceived)
    requires Progress(s2, u) && AtMostOneMore(s2, u) && t == u
    ensures Progress(s, t) && AtMostOneMore(s, t)
  {
  }

  /** Without a complete head within the size limit, only the buffer changes. */
  lemma HeadPending(s: ConnState, handler: Handler, data: string)
    requires s.environ.Some? && !(|data| <= MaxRequestSize && Find(data, HeadEnd).Some?)
    ensures ReceiveHead(s, handler, data).state == s.(buff := data)
  {
  }

  lemma ReceiveProgress(s: ConnState, handler: Handler, data: string)
    requires s.environ.Some?
    ensures var t := Receive(s, handler, data).state;
            Progress(s, t) && AtMostOneMore(s, t) && (s.headerReceived ==> t.dispatched == s.dispatched)
  {
    if !s.headerReceived {
      ReceiveHeadProgress(s, handler, data);
    } else {
      BodyChunkProgress(s, data);
    }
  }

  /** The answer `data_received` gives to an attempt keeps `Progress`. */
  lemma AnswerProgress(a: Attempt)
    ensures var t := Answer(a).state;
            Progress(a.state, t) && t.dispatched == a.state.dispatched
  {
    match a.outcome
    case Done => ProgressAppend(a.state, a.state, [], []);
    case HttpError(status) => ResponseProgress(a.state, status, [], []);
    case Failure => ResponseProgress(a.state, "500 Internal Server Error", [], []);
  }

  /**
   * `data_received` keeps `Progress`, hands at most one environ to the handler, and
   * none once the head of the current request has been received.
   */
  lemma DataReceivedProgress(s: ConnState, handler: Handler, data: string)
    ensures var t := DataReceived(s, handler, data).state;
            && Progress(s, t) && AtMostOneMore(s, t)
            && (!ReadingHead(s) ==> t.dispatched == s.dispatched)
  {
    var s0 := Started(s);
    ProgressAppend(s, s0, [], []);
    ReceiveProgress(s0, handler, data);
    var a := Receive(s0, handler, data);
    ProgressTransitive(s, s0, a.state);
    assert DataReceived(s, handler, data) == Answer(a);
    AnswerProgress(a);
    ProgressTransitive(s, a.state, Answer(a).state);
  }

  /** The timer callback keeps `Progress` and dispatches nothing. */
  lemma TimeoutProgress(s: ConnState)
    ensures var t := ConnectionTimeout(s).state;
            Progress(s, t) && t.dispatched == s.dispatched
  {
    var s1 := s.(timerPending := false);
    ProgressAppend(s, s1, [], []);
    if s1.environ.Some? {
      ResponseProgress(s1, "408 Request Timeout", [], []);
      ProgressTransitive(s, s1, Response(s1, "408 Request Timeout", [], []).state);
    } else {
      ProgressAppend(s, s1.(closed := true), [], []);
    }
  }
}
