/**
 * `Connection` of aqua/http.py as an object whose routines update its fields in
 * place. Each method is proved to move the object from one state to the next
 * exactly as the matching function of `HttpProtocol` says.
 */
module HttpConnection {
  import opened Types
  import opened Text
  import HttpHead
  import P = HttpProtocol

  class Connection {
    /** The request handler this connection was given. */
    const handler: P.Handler
    /** Whether `connection_made` has run (the transport exists). */
    var connected: bool
    /** This connection's view of `default_environ`. */
    var defaults: map<string, string>
    var environ: Option<P.Environ>
    var buff: string
    var headerReceived: bool
    /** The value of the `timeout` property and whether its timer is pending. */
    var timeout: nat
    var timerPending: bool
    /** The byte strings written to the transport, and whether it was closed. */
    var written: seq<string>
    var closed: bool
    /** The environs handed to the request handler, in order. */
    var dispatched: seq<P.Environ>

    function State(): P.ConnState
      reads this
    {
      P.ConnState(connected, defaults, environ, buff, headerReceived, timeout, timerPending,
                  written, closed, dispatched)
    }

    constructor (handler: P.Handler, defaults: map<string, string>)
      ensures State() == P.Initial(defaults) && this.handler == handler
    {
      this.handler := handler;
      connected := false;
      this.defaults := defaults;
      environ := None;
      buff := "";
      headerReceived := false;
      timeout := 0;
      timerPending := false;
      written := [];
      closed := false;
      dispatched := [];
    }

    /** The `timeout` property setter. */
    method SetTimeout(value: nat)
      modifies this`timeout, this`timerPending
      ensures State() == P.SetTimeout(old(State()), value)
    {
      timeout := value;
      timerPending := value > 0;
    }

    method ConnectionMade(localHost: string, localPort: nat, remoteHost: string)
      modifies this`connected, this`defaults, this`timeout, this`timerPending
      ensures State() == P.ConnectionMade(old(State()), localHost, localPort, remoteHost)
    {
      connected := true;
      if "SERVER_NAME" !in defaults {
        defaults := defaults["SERVER_NAME" := localHost];
      }
      if "SERVER_PORT" !in defaults {
        defaults := defaults["SERVER_PORT" := DecimalString(localPort)];
      }
      defaults := defaults["REMOTE_ADDR" := remoteHost];
      SetTimeout(P.FirstTimeout);
    }

    /** Run by the event loop when the pending timer fires. */
    method ConnectionTimeout() returns (raised: bool)
      requires connected && timerPending
      modifies this`environ, this`timeout, this`timerPending, this`written, this`closed
      ensures P.Step(State(), raised) == P.ConnectionTimeout(old(State()))
    {
      timerPending := false;
      if environ.Some? {
        raised := Response("408 Request Timeout", [], []);
      } else {
        closed := true;
        raised := false;
      }
    }

    method StartRequest()
      modifies this`buff, this`headerReceived, this`environ, this`timeout, this`timerPending
      ensures State() == P.StartRequest(old(State()))
    {
      buff := "";
      headerReceived := false;
      environ := Some(P.Environ(defaults, false, None));
      SetTimeout(P.RequestTimeout);
    }

    /** The inherited request handler. */
    method RequestHandler() returns (raised: bool)
      requires connected
      modifies this`environ, this`timeout, this`timerPending, this`written, this`closed
      ensures P.Step(State(), raised) == P.Response(old(State()), "501 Not Implemented", [], [])
    {
      raised := Response("501 Not Implemented", [], []);
    }

    method ExpectContinue()
      modifies this`written
      ensures State() == P.ExpectContinue(old(State()))
    {
      written := written + [P.ContinueReply];
    }

    method BodyChunkReceived(data: string) returns (raised: bool)
      modifies this`environ, this`timeout, this`timerPending
      ensures P.Step(State(), raised) == P.BodyChunk(old(State()), data)
      ensures old(environ).Some? ==> environ.Some?
    {
      if environ.None? || environ.value.complete {
        return true;
      }
      if environ.value.input.None? {
        environ := Some(environ.value.(input := Some("")));
      }
      if "CONTENT_LENGTH" in environ.value.vars {
        environ := Some(environ.value.(input := Some(environ.value.input.value + data)));
        var length := PyInt(environ.value.vars["CONTENT_LENGTH"]);
        if length.None? {
          return true;
        }
        if |environ.value.input.value| < length.value {
          return false;
        }
      }
      environ := Some(environ.value.(complete := true));
      SetTimeout(0);
      raised := false;
    }

    method Response(status: string, headers: seq<(string, string)>, body: seq<string>) returns (raised: bool)
      requires connected
      modifies this`environ, this`timeout, this`timerPending, this`written, this`closed
      ensures P.Step(State(), raised) == P.Response(old(State()), status, headers, body)
    {
      SetTimeout(0);
      var opening := ResponseOpening(status);
      if opening.None? {
        return true;
      }
      raised := Emit(opening.value, headers, body);
    }

    /** The status code, the close decision and the status line of a response. */
    method ResponseOpening(status: string) returns (opening: Option<P.Opening>)
      ensures opening == P.ResponseOpening(environ, status)
    {
      var code := P.StatusCode(status);
      if code.None? {
        return None;
      }
      var close: bool;
      if code.value < 400 {
        if environ.None? {
          return None;
        }
        if "HTTP_CONNECTION" in environ.value.vars {
          close := environ.value.vars["HTTP_CONNECTION"] == "close";
        } else if "SERVER_PROTOCOL" in environ.value.vars {
          close := StrLess(environ.value.vars["SERVER_PROTOCOL"], "HTTP/1.1");
        } else {
          return None;
        }
      } else {
        close := true;
      }
      assert P.InitialClose(environ, code.value) == Some(close);
      if environ.None? || "SERVER_PROTOCOL" !in environ.value.vars {
        return None;
      }
      var line := P.StatusLine(environ.value.vars["SERVER_PROTOCOL"], status);
      if !P.Latin1(line) {
        return None;
      }
      opening := Some(P.Opening(close, line));
    }

    /** The header loop of a response: the close flag and the lines written. */
    static method WriteHeaders(headers: seq<(string, string)>, close0: bool, log0: seq<string>) returns (e: P.Emitted)
      ensures e == P.WriteHeaders(headers, close0, log0)
    {
      var close, log := close0, log0;
      var i := 0;
      while i < |headers|
        invariant 0 <= i <= |headers|
        invariant P.WriteHeaders(headers[i..], close, log) == P.WriteHeaders(headers, close0, log0)
      {
        var (name, value) := headers[i];
        if !close && name == "Connection" {
          close := value == "close";
        }
        var header := P.HeaderLine(name, value);
        if !P.Latin1(header) {
          return P.Emitted(close, log, true);
        }
        log := log + [header];
        assert headers[i..][1..] == headers[i + 1..];
        i := i + 1;
      }
      e := P.Emitted(close, log, false);
    }

    /** Writes a response that has its opening, then closes or keeps the connection. */
    method Emit(opening: P.Opening, headers: seq<(string, string)>, body: seq<string>) returns (raised: bool)
      modifies this`environ, this`timeout, this`timerPending, this`written, this`closed
      ensures P.Step(State(), raised) == P.Emit(old(State()), opening, headers, body)
    {
      var h := WriteHeaders(headers, opening.close, written + [opening.line]);
      if h.raised {
        written := h.log;
        return true;
      }
      var log := h.log + ["\r\n"];
      ghost var log0 := log;
      var i := 0;
      while i < |body|
        invariant 0 <= i <= |body|
        invariant log == log0 + body[..i]
      {
        log := log + [body[i]];
        assert body[..i + 1] == body[..i] + [body[i]];
        i := i + 1;
      }
      assert body[..|body|] == body;
      written := log;
      if h.close {
        closed := true;
      } else {
        environ := None;
        SetTimeout(P.KeepaliveTimeout);
      }
      raised := false;
    }

    /** Hands the environ to the request handler. */
    method Dispatch() returns (raised: bool)
      requires connected && environ.Some?
      modifies this`environ, this`timeout, this`timerPending, this`written, this`closed, this`dispatched
      ensures P.Step(State(), raised) == P.Dispatch(old(State()), handler)
    {
      dispatched := dispatched + [environ.value];
      if handler == P.NotImplemented {
        raised := RequestHandler();
      } else {
        raised := false;
      }
    }

    /** The branch of `data_received` taken while the head has not been received. */
    method ReceiveHead(data: string) returns (outcome: P.Outcome)
      requires connected && environ.Some?
      modifies this`buff, this`headerReceived, this`environ, this`timeout, this`timerPending, this`written, this`closed, this`dispatched
      ensures P.Attempt(State(), outcome) == P.ReceiveHead(old(State()), handler, data)
    {
      buff := data;
      if |buff| > HttpHead.MaxRequestSize {
        return P.HttpError("414 Request Too Long");
      }
      outcome := ScanHead(data);
    }

    /** Looks for the end of the head in the buffer. */
    method ScanHead(data: string) returns (outcome: P.Outcome)
      requires connected && environ.Some?
      modifies this`headerReceived, this`environ, this`timeout, this`timerPending, this`written, this`closed, this`dispatched
      ensures P.Attempt(State(), outcome) == P.ScanHead(old(State()), handler, data)
    {
      var found := Find(data, P.HeadEnd);
      if found.None? {
        return P.Done;
      }
      var pos := found.value;
      headerReceived := true;
      outcome := HeadFound(data[..pos + 4], data[pos + 4..]);
    }

    /** Parses a complete head and merges its variables into the environ. */
    method HeadFound(head: string, rest: string) returns (outcome: P.Outcome)
      requires connected && environ.Some?
      modifies this`environ, this`timeout, this`timerPending, this`written, this`closed, this`dispatched
      ensures P.Attempt(State(), outcome) == P.HeadFound(old(State()), handler, head, rest)
    {
      var parsed := HttpHead.ParseEnviron(head);
      if parsed.Err? {
        return P.HeadOutcome(parsed.error);
      }
      environ := Some(environ.value.(vars := environ.value.vars + parsed.value));
      outcome := HeadParsed(rest);
    }

    /** What follows a parsed head: the first body chunk, `Expect`, and dispatch. */
    method HeadParsed(rest: string) returns (outcome: P.Outcome)
      requires connected && environ.Some?
      modifies this`environ, this`timeout, this`timerPending, this`written, this`closed, this`dispatched
      ensures P.Attempt(State(), outcome) == P.HeadParsed(old(State()), handler, rest)
    {
      if "CONTENT_TYPE" in environ.value.vars {
        var failed := BodyChunkReceived(rest);
        if failed {
          return P.Failure;
        }
        if "HTTP_EXPECT" in environ.value.vars && environ.value.vars["HTTP_EXPECT"] == "100-continue" {
          ExpectContinue();
        } else {
          SetTimeout(0);
        }
      } else {
        environ := Some(environ.value.(complete := true));
      }
      var raised := Dispatch();
      outcome := if raised then P.Failure else P.Done;
    }

    method DataReceived(data: string) returns (raised: bool)
      requires connected
      modifies this`buff, this`headerReceived, this`environ, this`timeout, this`timerPending, this`written, this`closed, this`dispatched
      ensures P.Step(State(), raised) == P.DataReceived(old(State()), handler, data)
    {
      if environ.None? {
        StartRequest();
      }
      var outcome: P.Outcome;
      if !headerReceived {
        outcome := ReceiveHead(data);
      } else {
        var failed := BodyChunkReceived(data);
        outcome := if failed then P.Failure else P.Done;
      }
      match outcome
      case Done => raised := false;
      case HttpError(status) => raised := Response(status, [], []);
      case Failure => raised := Response("500 Internal Server Error", [], []);
    }
  }
}
