/**
 * The request-head parser of aqua/http.py: the percent-decoder `unquote_bytes`
 * and `parse_environ`, which turns the bytes before the body into the CGI-style
 * variables of the environ (REQUEST_METHOD, PATH_INFO, HTTP_HOST, ...).
 */
module HttpHead {
  import opened Types
  import opened Text

  /** `_MAX_REQUEST_LINE`: the longest request line accepted. */
  const MaxRequestLine: nat := 2 * 1024
  /** `_MAX_REQUEST_SIZE`: the largest request head accepted before its terminator is seen. */
  const MaxRequestSize: nat := 64 * 1024

  /**
   * How `parse_environ` fails: the first three raise the module's `Error` with an
   * HTTP status; a malformed head raises an ordinary exception (a failed tuple
   * unpacking, or a continuation line with no header before it).
   */
  datatype HeadError = RequestTooLong | VersionNotSupported | BadRequest | Malformed

  /** The status `data_received` answers each failure with. */
  function ErrorStatus(e: HeadError): string
  {
    match e
    case RequestTooLong => "414 Request Too Long"
    case VersionNotSupported => "505 HTTP Version Not Supported"
    case BadRequest => "400 Bad Request"
    case Malformed => "500 Internal Server Error"
  }

  // ---------------------------------------------------------------------------
  // unquote_bytes
  // ---------------------------------------------------------------------------

  /**
   * One piece after a `%`: `bytes([int(p[:2], 16)]) + p[2:]`, or None where the
   * source raises ValueError (no number, or a number outside 0..255).
   */
  function DecodeEscape(p: string): (r: Option<string>)
    ensures r.Some? ==> |p| > 0 && |r.value| > 0 && r.value[0] as int < 256
    ensures r.Some? ==> r.value[1..] == p[if |p| < 2 then |p| else 2..]
    ensures |p| >= 2 && IsHexDigit(p[0]) && IsHexDigit(p[1]) ==>
              r == Some([(HexDigitValue(p[0]).value * 16 + HexDigitValue(p[1]).value) as char] + p[2..])
  {
    var n := if |p| < 2 then |p| else 2;
    match PyHexInt(p[..n])
    case None => None
    case Some(v) => if 0 <= v < 256 then Some([v as char] + p[n..]) else None
  }

  /** Two partial results concatenated; None when either failed. */
  function Both(x: Option<seq<string>>, y: Option<seq<string>>): Option<seq<string>>
  {
    if x.Some? && y.Some? then Some(x.value + y.value) else None
  }

  /** A partial result of one element. */
  function One(o: Option<string>): Option<seq<string>>
  {
    if o.Some? then Some([o.value]) else None
  }

  lemma BothAssociative(x: Option<seq<string>>, y: Option<seq<string>>, z: Option<seq<string>>)
    ensures Both(x, Both(y, z)) == Both(Both(x, y), z)
  {
    if x.Some? && y.Some? && z.Some? {
      assert x.value + (y.value + z.value) == (x.value + y.value) + z.value;
    }
  }

  /** Every piece decoded, or None when one of them fails. */
  function DecodeEscapes(ps: seq<string>): Option<seq<string>>
  {
    if |ps| == 0 then Some([]) else Both(One(DecodeEscape(ps[0])), DecodeEscapes(ps[1..]))
  }

  /** Decoding distributes over concatenation. */
  lemma {:induction false} DecodeEscapesAppend(a: seq<string>, b: seq<string>)
    ensures DecodeEscapes(a + b) == Both(DecodeEscapes(a), DecodeEscapes(b))
    decreases |a|
  {
    if |a| == 0 {
      assert a + b == b;
      if DecodeEscapes(b).Some? { assert [] + DecodeEscapes(b).value == DecodeEscapes(b).value; }
    } else {
      assert (a + b)[0] == a[0] && (a + b)[1..] == a[1..] + b;
      DecodeEscapesAppend(a[1..], b);
      BothAssociative(One(DecodeEscape(a[0])), DecodeEscapes(a[1..]), DecodeEscapes(b));
    }
  }

  lemma DecodeEscapesSnoc(ps: seq<string>, p: string)
    ensures DecodeEscapes(ps + [p]) == Both(DecodeEscapes(ps), One(DecodeEscape(p)))
  {
    DecodeEscapesAppend(ps, [p]);
    assert [p][1..] == [];
    if DecodeEscape(p).Some? { assert [DecodeEscape(p).value] + [] == [DecodeEscape(p).value]; }
  }

  lemma {:induction false} DecodeEscapesFails(ps: seq<string>, k: nat)
    requires k < |ps| && DecodeEscape(ps[k]).None?
    ensures DecodeEscapes(ps).None?
    decreases k
  {
    if k > 0 { DecodeEscapesFails(ps[1..], k - 1); }
  }

  /** The value `unquote_bytes(data)` returns, or None where it raises ValueError. */
  function Unquoted(data: string): Option<string>
  {
    var pieces := Split(data, "%");
    match DecodeEscapes(pieces[1..])
    case None => None
    case Some(ds) => Some(Concat([pieces[0]] + ds))
  }

  /** `unquote_bytes`: splits on `%` and rewrites every piece after the first in place. */
  method UnquoteBytes(data: string) returns (r: Option<string>)
    ensures r == Unquoted(data)
  {
    var res := Split(data, "%");
    ghost var pieces := res;
    var i := 1;
    while i < |res|
      invariant 1 <= i <= |res| == |pieces|
      invariant res[0] == pieces[0] && res[i..] == pieces[i..]
      invariant DecodeEscapes(pieces[1..i]) == Some(res[1..i])
    {
      var item := res[i];
      var decoded := DecodeEscape(item);
      if decoded.None? {
        DecodeEscapesFails(pieces[1..], i - 1);
        return None;
      }
      assert pieces[1..i + 1] == pieces[1..i] + [item];
      DecodeEscapesSnoc(pieces[1..i], item);
      res := res[i := decoded.value];
      assert res[1..i + 1] == res[1..i] + [decoded.value];
      i := i + 1;
    }
    assert pieces[1..i] == pieces[1..];
    assert res == [pieces[0]] + res[1..i];
    return Some(Concat(res));
  }

  // ---------------------------------------------------------------------------
  // The request target
  // ---------------------------------------------------------------------------

  /** Every atom unquoted, or None when one of them fails. */
  function UnquoteAtoms(atoms: seq<string>): Option<seq<string>>
  {
    if |atoms| == 0 then Some([]) else Both(One(Unquoted(atoms[0])), UnquoteAtoms(atoms[1..]))
  }

  /** Unquoting distributes over concatenation. */
  lemma {:induction false} UnquoteAtomsAppend(a: seq<string>, b: seq<string>)
    ensures UnquoteAtoms(a + b) == Both(UnquoteAtoms(a), UnquoteAtoms(b))
    decreases |a|
  {
    if |a| == 0 {
      assert a + b == b;
      if UnquoteAtoms(b).Some? { assert [] + UnquoteAtoms(b).value == UnquoteAtoms(b).value; }
    } else {
      assert (a + b)[0] == a[0] && (a + b)[1..] == a[1..] + b;
      UnquoteAtomsAppend(a[1..], b);
      BothAssociative(One(Unquoted(a[0])), UnquoteAtoms(a[1..]), UnquoteAtoms(b));
    }
  }

  lemma UnquoteAtomsSnoc(atoms: seq<string>, a: string)
    ensures UnquoteAtoms(atoms + [a]) == Both(UnquoteAtoms(atoms), One(Unquoted(a)))
  {
    UnquoteAtomsAppend(atoms, [a]);
    assert [a][1..] == [];
    if Unquoted(a).Some? { assert [Unquoted(a).value] + [] == [Unquoted(a).value]; }
  }

  lemma {:induction false} UnquoteAtomsFails(atoms: seq<string>, k: nat)
    requires k < |atoms| && Unquoted(atoms[k]).None?
    ensures UnquoteAtoms(atoms).None?
    decreases k
  {
    if k > 0 { UnquoteAtomsFails(atoms[1..], k - 1); }
  }

  /**
   * The PATH_INFO of a raw path: the atoms between `%2F`/`%2f` unquoted one by one
   * and joined again with `%2F`; None where the source raises `400 Bad Request`.
   */
  function DecodePath(path: string): Option<string>
  {
    match UnquoteAtoms(SplitQuotedSlash(path))
    case None => None
    case Some(atoms) => Some(Join(atoms, "%2F"))
  }

  /** `uri.split(b'?', 1)`: the path and the query string (empty when there is no `?`). */
  function SplitTarget(uri: string): (r: (string, string))
    ensures Lacks(r.0, '?')
    ensures r.0 == uri || r.0 + "?" + r.1 == uri
    ensures r.0 == uri ==> r.1 == ""
  {
    match Find(uri, "?")
    case None =>
      assert Lacks(uri, '?') by {
        forall k | 0 <= k < |uri| ensures uri[k] != '?' {
          if uri[k] == '?' {
            assert OccursAt(uri, "?", k) by { assert uri[k..k + 1] == [uri[k]]; }
            FindLeftmost(uri, "?", k);
          }
        }
      }
      (uri, "")
    case Some(i) =>
      assert Lacks(uri[..i], '?') by {
        forall k | 0 <= k < i ensures uri[k] != '?' {
          if uri[k] == '?' {
            assert OccursAt(uri, "?", k) by { assert uri[k..k + 1] == [uri[k]]; }
            FindLeftmost(uri, "?", k);
          }
        }
      }
      assert uri == uri[..i] + uri[i..i + 1] + uri[i + 1..];
      (uri[..i], uri[i + 1..])
  }

  // ---------------------------------------------------------------------------
  // Header lines
  // ---------------------------------------------------------------------------

  /** A meta-variable name that a header line can produce. */
  predicate IsHeaderKey(k: string)
  {
    k == "CONTENT_TYPE" || k == "CONTENT_LENGTH" || (|k| >= 5 && k[..5] == "HTTP_")
  }

  /**
   * The environ key of a (stripped) header name: upper-cased, `-` replaced by `_`,
   * and prefixed with `HTTP_` unless it is CONTENT_TYPE or CONTENT_LENGTH.
   */
  function HeaderKey(name: string): (r: string)
    ensures IsHeaderKey(r)
    ensures forall k :: 0 <= k < |r| ==> r[k] != '-' && !('a' <= r[k] <= 'z')
  {
    var u := ReplaceChar(Upper(name), '-', '_');
    assert forall k :: 0 <= k < |u| ==> u[k] != '-' && !('a' <= u[k] <= 'z');
    if u == "CONTENT_TYPE" || u == "CONTENT_LENGTH" then u
    else
      var r := "HTTP_" + u;
      assert forall k :: 5 <= k < |r| ==> r[k] == u[k - 5];
      r
  }

  /** The line starts a continuation of the previous header. */
  predicate IsContinuation(item: string)
  {
    |item| > 0 && (item[0] == ' ' || item[0] == '\t')
  }

  /**
   * One non-blank line of the header loop of `parse_environ`, given the variables
   * built so far and the key of the previous header (None before the first): the
   * new variables and the new previous key. A continuation line appends
   * `item[0].strip()` to the previous header and fails (KeyError) when there is
   * none; a line without `:` fails (the unpacking); a repeated key is joined
   * with `", "`.
   */
  function HeaderStep(item: string, result: map<string, string>, name: Option<string>)
    : Result<(map<string, string>, Option<string>), HeadError>
    requires item != ""
  {
    if IsContinuation(item) then
      if name.None? || name.value !in result then Err(Malformed)
      else Ok((result[name.value := result[name.value] + Strip([item[0]])], name))
    else
      match Find(item, ":")
      case None => Err(Malformed)
      case Some(i) =>
        var key := HeaderKey(Strip(item[..i]));
        var value := Strip(item[i + 1..]);
        Ok((result[key := if key in result then result[key] + ", " + value else value], Some(key)))
  }

  /** The header loop of `parse_environ` from `lines[0]` on; a blank line or the end stops it. */
  function HeaderFold(lines: seq<string>, result: map<string, string>, name: Option<string>)
    : Result<map<string, string>, HeadError>
    decreases |lines|
  {
    if |lines| == 0 || lines[0] == "" then Ok(result)
    else
      var step := HeaderStep(lines[0], result, name);
      if step.Err? then Err(step.error) else HeaderFold(lines[1..], step.value.0, step.value.1)
  }

  /** The variables taken from the request line. */
  function RequestVars(verb: string, uri: string, version: string, path: string, query: string)
    : map<string, string>
  {
    map["REQUEST_METHOD" := verb, "REQUEST_URI" := uri, "SERVER_PROTOCOL" := version,
        "SCRIPT_NAME" := "", "PATH_INFO" := path, "QUERY_STRING" := query]
  }

  /** What `parse_environ(data)` returns, or the failure it raises. */
  function ParseEnvironSpec(data: string): Result<map<string, string>, HeadError>
  {
    var lines := Split(data, "\r\n");
    if |lines[0]| > MaxRequestLine then Err(RequestTooLong)
    else
      var words := Split(lines[0], " ");
      if |words| != 3 then Err(Malformed)
      else if words[2] != "HTTP/1.0" && words[2] != "HTTP/1.1" then Err(VersionNotSupported)
      else
        var (path, query) := SplitTarget(words[1]);
        match DecodePath(path)
        case None => Err(BadRequest)
        case Some(p) => HeaderFold(lines[1..], RequestVars(words[0], words[1], words[2], p, query), None)
  }

  /** The path atoms of `parse_environ`: each unquoted, or `400 Bad Request`. */
  method DecodePathAtoms(path: string) returns (r: Option<string>)
    ensures r == DecodePath(path)
  {
    var split := SplitQuotedSlash(path);
    var atoms: seq<string> := [];
    while |atoms| < |split|
      invariant |atoms| <= |split|
      invariant UnquoteAtoms(split[..|atoms|]) == Some(atoms)
    {
      var n := |atoms|;
      var atom := UnquoteBytes(split[n]);
      if atom.None? {
        UnquoteAtomsFails(split, n);
        return None;
      }
      assert split[..n + 1] == split[..n] + [split[n]];
      UnquoteAtomsSnoc(split[..n], split[n]);
      atoms := atoms + [atom.value];
    }
    assert split[..|atoms|] == split;
    return Some(Join(atoms, "%2F"));
  }

  /** The body of the header loop of `parse_environ`, for a non-blank line. */
  method ReadHeaderLine(item: string, result: map<string, string>, name: Option<string>)
    returns (r: Result<(map<string, string>, Option<string>), HeadError>)
    requires item != ""
    ensures r == HeaderStep(item, result, name)
  {
    if item[0] == ' ' || item[0] == '\t' {
      if name.None? || name.value !in result {
        return Err(Malformed);
      }
      return Ok((result[name.value := result[name.value] + Strip([item[0]])], name));
    }
    var colon := Find(item, ":");
    if colon.None? {
      return Err(Malformed);
    }
    var key := HeaderKey(Strip(item[..colon.value]));
    var value := Strip(item[colon.value + 1..]);
    if key in result {
      return Ok((result[key := result[key] + ", " + value], Some(key)));
    }
    return Ok((result[key := value], Some(key)));
  }

  /** The header loop of `parse_environ`, over the lines after the request line. */
  method ReadHeaders(lines: seq<string>, vars: map<string, string>) returns (r: Result<map<string, string>, HeadError>)
    requires |lines| >= 1
    ensures r == HeaderFold(lines[1..], vars, None)
  {
    var result := vars;
    var name: Option<string> := None;
    var i := 1;
    while i < |lines|
      invariant 1 <= i <= |lines|
      invariant HeaderFold(lines[i..], result, name) == HeaderFold(lines[1..], vars, None)
    {
      assert lines[i..][0] == lines[i] && lines[i..][1..] == lines[i + 1..];
      var item := lines[i];
      if item == "" {
        break;
      }
      var step := ReadHeaderLine(item, result, name);
      if step.Err? {
        return Err(step.error);
      }
      result, name := step.value.0, step.value.1;
      i := i + 1;
    }
    return Ok(result);
  }

  /** `parse_environ`: the request line, the path atoms, then the header loop. */
  method ParseEnviron(data: string) returns (r: Result<map<string, string>, HeadError>)
    ensures r == ParseEnvironSpec(data)
  {
    var lines := Split(data, "\r\n");
    if |lines[0]| > MaxRequestLine {
      return Err(RequestTooLong);
    }
    var words := Split(lines[0], " ");
    if |words| != 3 {
      return Err(Malformed);
    }
    var verb, uri, version := words[0], words[1], words[2];
    if version != "HTTP/1.0" && version != "HTTP/1.1" {
      return Err(VersionNotSupported);
    }
    var (path, query) := SplitTarget(uri);
    var decoded := DecodePathAtoms(path);
    if decoded.None? {
      return Err(BadRequest);
    }
    r := ReadHeaders(lines, RequestVars(verb, uri, version, decoded.value, query));
  }
}
