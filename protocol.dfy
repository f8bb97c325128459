/**
 * The connection protocol of aqua/http.py as a state machine over values: every
 * routine of `Connection` is a function from the connection state before it to the
 * state after it, together with whether it ended by raising an exception.
 *
 * The transport is a log of the byte strings written to it and a closed flag; the
 * I/O timer is the duration last given to the `timeout` setter (in milliseconds)
 * and whether its callback is still pending; handing the environ to the request
 * handler is recorded as an entry of `dispatched`.
 */
module HttpProtocol {
  import opened Types
  import opened Text
  import opened HttpHead

  /** Timeout for the first request of a connection (0.2 s). */
  const FirstTimeout: nat := 200
  /** Timeout for reading the head and the body of a request (5.0 s). */
  const RequestTimeout: nat := 5000
  /** Timeout for waiting for the next request on a kept-alive connection (3.0 s). */
  const KeepaliveTimeout: nat := 3000

  const HeadEnd: string := "\r\n\r\n"
  const ContinueReply: string := "HTTP/1.1 100 (Continue)\r\n\r\n"

  /** The str entries of the class-level default environ. */
  const DefaultEnviron: map<string, string> :=
    map["wsgi.url_scheme" := "http", "SERVER_PROTOCOL" := "HTTP/1.0", "SERVER_SOFTWARE" := "Aqua/DEV"]

  /**
   * A request environ: its str variables, the `aqua.complete` flag, and the bytes
   * written to `wsgi.input` when that entry exists.
   */
  datatype Environ = Environ(vars: map<string, string>, complete: bool, input: Option<string>)

  /**
   * The request handler: the inherited one answers `501 Not Implemented` at once,
   * a coroutine handler is scheduled as a task and answers later.
   */
  datatype Handler = NotImplemented | Deferred

  datatype ConnState = ConnState(
    connected: bool,
    defaults: map<string, string>,
    environ: Option<Environ>,
    buff: string,
    headerReceived: bool,
    timeout: nat,
    timerPending: bool,
    written: seq<string>,
    closed: bool,
    dispatched: seq<Environ>)

  /** The state after a routine and whether that routine raised. */
  datatype Step = Step(state: ConnState, raised: bool)

  /** How the `try` block of `data_received` ended. */
  datatype Outcome = Done | HttpError(status: string) | Failure

  datatype Attempt = Attempt(state: ConnState, outcome: Outcome)

  /** A freshly constructed connection. */
  function Initial(defaults: map<string, string>): ConnState
  {
    ConnState(false, defaults, None, "", false, 0, false, [], false, [])
  }

  /** Whether a str can be encoded as ISO-8859-1. */
  predicate Latin1(s: string)
  {
    forall k :: 0 <= k < |s| ==> s[k] as int < 256
  }

  /** The `timeout` setter: the old timer is cancelled and a new one armed when `value > 0`. */
  function SetTimeout(s: ConnState, value: nat): ConnState
  {
    s.(timeout := value, timerPending := value > 0)
  }

  /** `connection_made`: fills the default environ from the socket addresses. */
  function ConnectionMade(s: ConnState, localHost: string, localPort: nat, remoteHost: string): ConnState
  {
    var d1 := if "SERVER_NAME" in s.defaults then s.defaults else s.defaults["SERVER_NAME" := localHost];
    var d2 := if "SERVER_PORT" in d1 then d1 else d1["SERVER_PORT" := DecimalString(localPort)];
    SetTimeout(s.(connected := true, defaults := d2["REMOTE_ADDR" := remoteHost]), FirstTimeout)
  }

  /** `start_request`: an empty buffer and a copy of the default environ. */
  function StartRequest(s: ConnState): ConnState
  {
    SetTimeout(s.(buff := "", headerReceived := false, environ := Some(Environ(s.defaults, false, None))),
               RequestTimeout)
  }

  /** `expect_continue`: the interim `100 (Continue)` reply. */
  function ExpectContinue(s: ConnState): ConnState
  {
    s.(written := s.written + [ContinueReply])
  }

  // ---------------------------------------------------------------------------
  // response
  // ---------------------------------------------------------------------------

  /** `int(status.split(' ')[0])`. */
  function StatusCode(status: string): Option<int>
  {
    PyInt(Split(status, " ")[0])
  }

  /**
   * Whether the response closes the connection before its headers are looked at;
   * None when reading the environ raises.
   */
  function InitialClose(env: Option<Environ>, code: int): Option<bool>
  {
    if code >= 400 then Some(true)
    else if env.None? then None
    else if "HTTP_CONNECTION" in env.value.vars then Some(env.value.vars["HTTP_CONNECTION"] == "close")
    else if "SERVER_PROTOCOL" in env.value.vars then Some(StrLess(env.value.vars["SERVER_PROTOCOL"], "HTTP/1.1"))
    else None
  }

  function HeaderLine(name: string, value: string): string
  {
    name + ": " + value + "\r\n"
  }

  /** The close flag, the transport log, and whether encoding a header line raised. */
  datatype Emitted = Emitted(close: bool, log: seq<string>, raised: bool)

  /** The header loop of `response`: a `Connection` header is only looked at while the flag is clear. */
  function WriteHeaders(headers: seq<(string, string)>, close: bool, log: seq<string>): Emitted
    decreases |headers|
  {
    if |headers| == 0 then Emitted(close, log, false)
    else
      var close' := if !close && headers[0].0 == "Connection" then headers[0].1 == "close" else close;
      var line := HeaderLine(headers[0].0, headers[0].1);
      if !Latin1(line) then Emitted(close', log, true)
      else WriteHeaders(headers[1..], close', log + [line])
  }

  /** The close flag and the status line a response starts with. */
  /** The status line `response` writes for a protocol and a status. */
  function StatusLine(protocol: string, status: string): string
  {
    protocol + " " + status + "\r\n"
  }

  datatype Opening = Opening(close: bool, line: string)

  /**
   * The part of `response` before anything is written: the status code, the close
   * decision and the encoded status line; None when one of them raises.
   */
  function ResponseOpening(env: Option<Environ>, status: string): Option<Opening>
  {
    var code := StatusCode(status);
    if code.None? then None
    else
      var close := InitialClose(env, code.value);
      if close.None? || env.None? || "SERVER_PROTOCOL" !in env.value.vars then None
      else
        var line := StatusLine(env.value.vars["SERVER_PROTOCOL"], status);
        if !Latin1(line) then None else Some(Opening(close.value, line))
  }

  /** The writes of `response` and what it does with the connection afterwards. */
  function Emit(s: ConnState, opening: Opening, headers: seq<(string, string)>, body: seq<string>): Step
  {
    var h := WriteHeaders(headers, opening.close, s.written + [opening.line]);
    if h.raised then Step(s.(written := h.log), true)
    else
      var s1 := s.(written := h.log + ["\r\n"] + body);
      if h.close then Step(s1.(closed := true), false)
      else Step(SetTimeout(s1.(environ := None), KeepaliveTimeout), false)
  }

  /** `response(status, headers, app_iter)`. */
  function Response(s: ConnState, status: string, headers: seq<(string, string)>, body: seq<string>): Step
  {
    var s1 := SetTimeout(s, 0);
    var opening := ResponseOpening(s1.environ, status);
    if opening.None? then Step(s1, true) else Emit(s1, opening.value, headers, body)
  }

  /** `connection_timeout`, run when the pending timer fires. */
  function ConnectionTimeout(s: ConnState): Step
  {
    var s1 := s.(timerPending := false);
    if s1.environ.Some? then Response(s1, "408 Request Timeout", [], [])
    else Step(s1.(closed := true), false)
  }

  // ---------------------------------------------------------------------------
  // body_chunk_received and data_received
  // ---------------------------------------------------------------------------

  /**
   * `body_chunk_received(self._environ, data)`. Without `CONTENT_LENGTH` the chunk
   * is dropped and the body counts as complete.
   */
  function BodyChunk(s: ConnState, data: string): (r: Step)
    ensures s.environ.Some? ==> r.state.environ.Some? && r.state.environ.value.vars == s.environ.value.vars
    ensures r.state == s.(environ := r.state.environ, timeout := r.state.timeout, timerPending := r.state.timerPending)
    ensures r.state.timerPending ==> s.timerPending && r.state.timeout == s.timeout
  {
    if s.environ.None? then Step(s, true)
    else
      var env := s.environ.value;
      if env.complete then Step(s, true)
      else
        var input := if env.input.Some? then env.input.value else "";
        if "CONTENT_LENGTH" in env.vars then
          var env1 := env.(input := Some(input + data));
          var length := PyInt(env.vars["CONTENT_LENGTH"]);
          if length.None? then Step(s.(environ := Some(env1)), true)
          else if |input + data| < length.value then Step(s.(environ := Some(env1)), false)
          else Step(SetTimeout(s.(environ := Some(env1.(complete := true))), 0), false)
        else Step(SetTimeout(s.(environ := Some(env.(input := Some(input), complete := true))), 0), false)
  }

  /** Handing the environ to the request handler. */
  function Dispatch(s: ConnState, handler: Handler): Step
    requires s.environ.Some?
  {
    var s1 := s.(dispatched := s.dispatched + [s.environ.value]);
    if handler == NotImplemented then Response(s1, "501 Not Implemented", [], [])
    else Step(s1, false)
  }

  function FromStep(r: Step): Attempt
  {
    Attempt(r.state, if r.raised then Failure else Done)
  }

  /** An error of `parse_environ`: an `Error` carries its status, anything else is a failure. */
  function HeadOutcome(e: HeadError): Outcome
  {
    if e == Malformed then Failure else HttpError(ErrorStatus(e))
  }

  /** After the head is parsed and merged: the first body chunk, `Expect`, and dispatch. */
  function HeadParsed(s: ConnState, handler: Handler, rest: string): Attempt
    requires s.environ.Some?
  {
    if "CONTENT_TYPE" in s.environ.value.vars then
      var b := BodyChunk(s, rest);
      if b.raised then Attempt(b.state, Failure)
      else
        var vars := b.state.environ.value.vars;
        var s1 := if "HTTP_EXPECT" in vars && vars["HTTP_EXPECT"] == "100-continue" then ExpectContinue(b.state)
                  else SetTimeout(b.state, 0);
        FromStep(Dispatch(s1, handler))
    else
      FromStep(Dispatch(s.(environ := Some(s.environ.value.(complete := true))), handler))
  }

  /** A complete head was found: `parse_environ` and the merge into the environ. */
  function HeadFound(s: ConnState, handler: Handler, head: string, rest: string): Attempt
    requires s.environ.Some?
  {
    var parsed := ParseEnvironSpec(head);
    if parsed.Err? then Attempt(s, HeadOutcome(parsed.error))
    else HeadParsed(s.(environ := Some(s.environ.value.(vars := s.environ.value.vars + parsed.value))), handler, rest)
  }

  /** The branch of `data_received` taken while the head has not been received. */
  function ReceiveHead(s: ConnState, handler: Handler, data: string): Attempt
    requires s.environ.Some?
  {
    var s1 := s.(buff := data);
    if |data| > MaxRequestSize then Attempt(s1, HttpError("414 Request Too Long"))
    else ScanHead(s1, handler, data)
  }

  /** Looks for the end of the head in the buffer. */
  function ScanHead(s: ConnState, handler: Handler, data: string): Attempt
    requires s.environ.Some?
  {
    var found := Find(data, HeadEnd);
    if found.None? then Attempt(s, Done)
    else HeadFound(s.(headerReceived := true), handler, data[..found.value + 4], data[found.value + 4..])
  }

  /** The `try` block of `data_received`. */
  function Receive(s: ConnState, handler: Handler, data: string): Attempt
    requires s.environ.Some?
  {
    if !s.headerReceived then ReceiveHead(s, handler, data)
    else FromStep(BodyChunk(s, data))
  }

  /** The `except` clauses of `data_received`: an exception raised while answering an error escapes. */
  function Answer(a: Attempt): Step
  {
    match a.outcome
    case Done => Step(a.state, false)
    case HttpError(status) => Response(a.state, status, [], [])
    case Failure => Response(a.state, "500 Internal Server Error", [], [])
  }

  /** `data_received(data)`. */
  function DataReceived(s: ConnState, handler: Handler, data: string): Step
  {
    var s0 := if s.environ.None? then StartRequest(s) else s;
    Answer(Receive(s0, handler, data))
  }
}
