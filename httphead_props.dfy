/**
 * What the request-head parser guarantees: percent-decoding of `%XY`, the
 * survival of `%2F` in PATH_INFO, a round trip through percent-encoding, the
 * shape of header keys, and the error outcomes of `parse_environ`.
 */
module HttpHeadProps {
  import opened Types
  import opened Text
  import opened HttpHead

  /** `x` put in front of a decoded string, failure kept. */
  function Prefixed(x: string, o: Option<string>): Option<string>
  {
    match o
    case None => None
    case Some(u) => Some(x + u)
  }

  // ---------------------------------------------------------------------------
  // unquote_bytes
  // ---------------------------------------------------------------------------

  lemma DecodeEscapesCons(p: string, ps: seq<string>)
    ensures DecodeEscapes([p] + ps) == Both(One(DecodeEscape(p)), DecodeEscapes(ps))
  {
    assert ([p] + ps)[0] == p && ([p] + ps)[1..] == ps;
  }

  lemma ConcatCons(x: string, y: string, rest: seq<string>)
    ensures Concat([x + y] + rest) == x + Concat([y] + rest)
  {
    assert ([x + y] + rest)[1..] == rest && ([y] + rest)[1..] == rest;
  }

  /** A prefix without `%` passes through `unquote_bytes` unchanged. */
  lemma UnquotedPlain(x: string, y: string)
    requires Lacks(x, '%')
    ensures Unquoted(x + y) == Prefixed(x, Unquoted(y))
  {
    SplitPrefixLacking(x, '%', y);
    var q := Split(y, "%");
    match DecodeEscapes(q[1..])
    case None =>
    case Some(ds) => ConcatCons(x, q[0], ds);
  }

  /** An input without `%` is returned unchanged. */
  lemma UnquotedLacking(s: string)
    requires Lacks(s, '%')
    ensures Unquoted(s) == Some(s)
  {
    SplitLacking(s, '%');
    assert "%" == ['%'];
    assert Split(s, "%") == [s];
    assert Split(s, "%")[1..] == [];
    assert DecodeEscapes(Split(s, "%")[1..]) == Some([]);
    assert [s] + [] == [s] && [s][1..] == [];
    assert Concat([s]) == s + Concat([]) && Concat([]) == "" && s + "" == s;
    assert Unquoted(s) == Some(Concat([s] + []));
  }

  lemma SplitPercent(z: string)
    ensures Split("%" + z, "%") == [""] + Split(z, "%")
  {
    assert "" + ['%'] + z == "%" + z;
    SplitAround("", '%', z);
    SplitLacking("", '%');
  }

  /** After a leading `%`, every piece of the rest is an escape. */
  lemma UnquotedPercent(z: string)
    ensures Unquoted("%" + z) == (match DecodeEscapes(Split(z, "%")) case None => None case Some(ds) => Some(Concat(ds)))
  {
    SplitPercent(z);
    assert ([""] + Split(z, "%"))[1..] == Split(z, "%");
    match DecodeEscapes(Split(z, "%"))
    case None =>
    case Some(ds) =>
      assert ([""] + ds)[1..] == ds;
      assert Concat([""] + ds) == "" + Concat(ds) == Concat(ds);
  }

  /** `%XY` with two hexadecimal digits becomes the octet 0xXY. */
  lemma UnquotedEscape(h1: char, h2: char, y: string)
    requires IsHexDigit(h1) && IsHexDigit(h2)
    ensures Unquoted("%" + [h1, h2] + y) ==
              Prefixed([(HexDigitValue(h1).value * 16 + HexDigitValue(h2).value) as char], Unquoted(y))
  {
    var hh := [h1, h2];
    var c := (HexDigitValue(h1).value * 16 + HexDigitValue(h2).value) as char;
    assert "%" + hh + y == "%" + (hh + y);
    UnquotedPercent(hh + y);
    assert h1 != '%' && h2 != '%';
    SplitPrefixLacking(hh, '%', y);
    var q := Split(y, "%");
    assert Split(hh + y, "%") == [hh + q[0]] + q[1..];
    assert (hh + q[0])[2..] == q[0] && (hh + q[0])[..2] == hh;
    assert DecodeEscape(hh + q[0]) == Some([c] + q[0]);
    DecodeEscapesCons(hh + q[0], q[1..]);
    match DecodeEscapes(q[1..])
    case None =>
    case Some(ds) =>
      ConcatCons([c], q[0], ds);
  }

  /** A `%` followed by a character that cannot start a number fails: `400 Bad Request`. */
  lemma UnquotedBadEscape(x: string, c: char, y: string)
    requires Lacks(x, '%') && c != '%'
    requires !IsHexDigit(c) && !IsAsciiSpace(c) && c != '+' && c != '-'
    ensures Unquoted(x + "%" + [c] + y).None?
  {
    UnquotedPlain(x, "%" + [c] + y);
    assert x + "%" + [c] + y == x + ("%" + [c] + y);
    assert "" + ['%'] + ([c] + y) == "%" + [c] + y;
    SplitAround("", '%', [c] + y);
    SplitLacking("", '%');
    SplitPrefixLacking([c], '%', y);
    var q := Split(y, "%");
    var pieces := Split("%" + [c] + y, "%");
    assert pieces[1..] == [[c] + q[0]] + q[1..];
    var p := [c] + q[0];
    assert p[..(if |p| < 2 then |p| else 2)][0] == c;
    assert DecodeEscape(p).None?;
    DecodeEscapesCons(p, q[1..]);
  }

  /** A trailing `%` fails: `400 Bad Request`. */
  lemma UnquotedTrailingPercent(x: string)
    requires Lacks(x, '%')
    ensures Unquoted(x + "%").None?
  {
    UnquotedPlain(x, "%");
    assert "" + ['%'] + "" == "%";
    SplitAround("", '%', "");
    SplitLacking("", '%');
    assert Split("%", "%")[1..] == [""];
    assert DecodeEscape("").None?;
    assert DecodeEscapes([""]).None? by { assert DecodeEscape([""][0]).None?; }
  }

  // ---------------------------------------------------------------------------
  // Percent-encoding, the inverse of unquote_bytes
  // ---------------------------------------------------------------------------

  /** The upper-case hexadecimal digit of `n`. */
  function HexChar(n: nat): (c: char)
    requires n < 16
    ensures IsHexDigit(c) && HexDigitValue(c) == Some(n)
  {
    if n < 10 then ('0' as int + n) as char else ('A' as int + n - 10) as char
  }

  /** Characters that percent-encoding (section 2.1 of RFC 3986) leaves as they are. */
  predicate Unreserved(c: char)
  {
    'A' <= c <= 'Z' || 'a' <= c <= 'z' || '0' <= c <= '9' || c == '-' || c == '.' || c == '_' || c == '~'
  }

  /** A string of octets. */
  predicate Octets(s: string)
  {
    forall k :: 0 <= k < |s| ==> s[k] as int < 256
  }

  /** Percent-encoding of a string of octets: `%XY` for every reserved octet. */
  function Quote(s: string): string
    requires Octets(s)
  {
    if |s| == 0 then ""
    else
      var c := s[0];
      var rest := Quote(s[1..]);
      if Unreserved(c) then [c] + rest
      else "%" + [HexChar(c as int / 16), HexChar(c as int % 16)] + rest
  }

  /** `unquote_bytes` undoes percent-encoding. */
  lemma {:induction false} UnquoteQuote(s: string)
    requires Octets(s)
    ensures Unquoted(Quote(s)) == Some(s)
    decreases |s|
  {
    if |s| == 0 {
      UnquotedLacking("");
    } else {
      var c := s[0];
      UnquoteQuote(s[1..]);
      if Unreserved(c) {
        UnquotedPlain([c], Quote(s[1..]));
      } else {
        var h1, h2 := HexChar(c as int / 16), HexChar(c as int % 16);
        UnquotedEscape(h1, h2, Quote(s[1..]));
        assert (c as int / 16 * 16 + c as int % 16) as char == c;
      }
      assert s == [c] + s[1..];
    }
  }

  // ---------------------------------------------------------------------------
  // PATH_INFO
  // ---------------------------------------------------------------------------

  lemma UnquoteAtomsCons(a: string, atoms: seq<string>)
    ensures UnquoteAtoms([a] + atoms) == Both(One(Unquoted(a)), UnquoteAtoms(atoms))
  {
    assert ([a] + atoms)[0] == a && ([a] + atoms)[1..] == atoms;
  }

  /** A path without `%` is its own PATH_INFO. */
  lemma DecodePathLacking(path: string)
    requires Lacks(path, '%')
    ensures DecodePath(path) == Some(path)
  {
    SplitQuotedSlashLacking(path);
    UnquotedLacking(path);
    UnquoteAtomsCons(path, []);
    assert [path] + [] == [path];
    assert Join([path], "%2F") == path;
  }

  /** An encoded slash, in either case, survives decoding as an upper-case `%2F`. */
  lemma DecodePathSlash(a: string, q: string, b: string)
    requires Lacks(a, '%')
    requires q == "%2F" || q == "%2f"
    ensures DecodePath(a + q + b) == Prefixed(a + "%2F", DecodePath(b))
  {
    SplitQuotedSlashAfter(a, q, b);
    UnquotedLacking(a);
    UnquoteAtomsCons(a, SplitQuotedSlash(b));
    match UnquoteAtoms(SplitQuotedSlash(b))
    case None =>
    case Some(us) =>
      JoinAppend(a, us, "%2F");
  }

  /** Decoding `%XY` in a path: the escape becomes its octet, the rest decodes as before. */
  lemma DecodePathEscape(h1: char, h2: char, y: string)
    requires IsHexDigit(h1) && IsHexDigit(h2) && (h1 != '2' || (h2 != 'F' && h2 != 'f'))
    requires Lacks(y, '%')
    ensures DecodePath("%" + [h1, h2] + y) ==
              Some([(HexDigitValue(h1).value * 16 + HexDigitValue(h2).value) as char] + y)
  {
    var s := "%" + [h1, h2] + y;
    assert !QuotedSlashAt(s, 0);
    assert s[1..] == [h1, h2] + y;
    assert Lacks(s[1..], '%') by {
      forall k | 0 <= k < |s| - 1 ensures s[1..][k] != '%' {
        if k >= 2 { assert s[1..][k] == y[k - 2]; }
      }
    }
    SplitQuotedSlashLacking(s[1..]);
    assert [s[0]] + s[1..] == s;
    assert SplitQuotedSlash(s) == ConsFirst(s[0], [s[1..]]);
    UnquotedEscape(h1, h2, y);
    UnquotedLacking(y);
    UnquoteAtomsCons(s, []);
    assert [Unquoted(s).value] + [] == [Unquoted(s).value];
    assert Join([Unquoted(s).value], "%2F") == Unquoted(s).value;
  }

  // ---------------------------------------------------------------------------
  // Header lines
  // ---------------------------------------------------------------------------

  /** A string of ASCII characters. */
  predicate Ascii(s: string)
  {
    forall k :: 0 <= k < |s| ==> s[k] < 128 as char
  }

  /** A character of a header name as its key spells it: upper case, `_` for `-`. */
  function KeyChar(c: char): char
  {
    if 'a' <= c <= 'z' then (c as int - 32) as char else if c == '-' then '_' else c
  }

  lemma {:induction false} UpperAscii(s: string)
    requires Ascii(s)
    ensures |Upper(s)| == |s|
    ensures forall k :: 0 <= k < |s| ==> Upper(s)[k] == if 'a' <= s[k] <= 'z' then (s[k] as int - 32) as char else s[k]
    decreases |s|
  {
    if |s| > 0 {
      UpperAscii(s[1..]);
      assert UpperChar(s[0]) == [if 'a' <= s[0] <= 'z' then (s[0] as int - 32) as char else s[0]];
    }
  }

  /**
   * ASCII header names that differ only in letter case, or in `-` against `_`,
   * give the same key (so their values are joined as one header).
   */
  lemma HeaderKeyCanonical(a: string, b: string)
    requires Ascii(a) && Ascii(b) && |a| == |b|
    requires forall k :: 0 <= k < |a| ==> KeyChar(a[k]) == KeyChar(b[k])
    ensures HeaderKey(a) == HeaderKey(b)
  {
    UpperAscii(a);
    UpperAscii(b);
    var ua := ReplaceChar(Upper(a), '-', '_');
    var ub := ReplaceChar(Upper(b), '-', '_');
    forall k | 0 <= k < |a| ensures ua[k] == ub[k] {
      assert ua[k] == KeyChar(a[k]);
      assert ub[k] == KeyChar(b[k]);
    }
    assert ua == ub;
  }

  /** A name spelled character by character as its key spells it. */
  function KeySpelling(name: string): string
  {
    seq(|name|, k requires 0 <= k < |name| => KeyChar(name[k]))
  }

  /**
   * The key of an ASCII header name: the name upper-cased with `_` for `-`,
   * prefixed with `HTTP_` unless that spelling is CONTENT_TYPE or CONTENT_LENGTH.
   */
  lemma HeaderKeyValue(name: string)
    requires Ascii(name)
    ensures var u := KeySpelling(name);
            HeaderKey(name) == if u == "CONTENT_TYPE" || u == "CONTENT_LENGTH" then u else "HTTP_" + u
  {
    UpperAscii(name);
    assert ReplaceChar(Upper(name), '-', '_') == KeySpelling(name);
  }

  /** `Host`, whose value the connection tests read back as `HTTP_HOST`. */
  lemma HostKey()
    ensures HeaderKey("Host") == "HTTP_HOST"
  {
    var name := "Host";
    assert Ascii(name) by {
      assert name[0] == 'H' && name[1] == 'o' && name[2] == 's' && name[3] == 't';
    }
    HeaderKeyValue(name);
    var u := KeySpelling(name);
    assert u[0] == 'H' && u[1] == 'O' && u[2] == 'S' && u[3] == 'T';
    assert u == "HOST";
  }

  /** Nothing after the first blank line is read. */
  lemma {:induction false} HeaderFoldStops(ls: seq<string>, rest: seq<string>, result: map<string, string>, name: Option<string>)
    ensures HeaderFold(ls + [""] + rest, result, name) == HeaderFold(ls + [""], result, name)
    decreases |ls|
  {
    if |ls| > 0 {
      assert (ls + [""] + rest)[0] == ls[0] && (ls + [""] + rest)[1..] == ls[1..] + [""] + rest;
      assert (ls + [""])[0] == ls[0] && (ls + [""])[1..] == ls[1..] + [""];
      if ls[0] != "" {
        var step := HeaderStep(ls[0], result, name);
        if step.Ok? {
          HeaderFoldStops(ls[1..], rest, step.value.0, step.value.1);
        }
      }
    } else {
      assert ls + [""] + rest == [""] + rest;
    }
  }

  /** A header line: non-blank, not a continuation, with a colon. */
  predicate IsHeaderLine(l: string)
  {
    l != "" && !IsContinuation(l) && Find(l, ":").Some?
  }

  /** The key and the stripped value a header line contributes. */
  function HeaderOf(l: string): (string, string)
    requires IsHeaderLine(l)
  {
    var i := Find(l, ":").value;
    (HeaderKey(Strip(l[..i])), Strip(l[i + 1..]))
  }

  /** What one header line does to the variables. */
  lemma HeaderStepLine(l: string, result: map<string, string>, name: Option<string>)
    requires IsHeaderLine(l)
    ensures var (key, value) := HeaderOf(l);
            HeaderStep(l, result, name) ==
              Ok((result[key := if key in result then result[key] + ", " + value else value], Some(key)))
  {
  }

  /** The header loop takes one line at a time. */
  lemma HeaderFoldCons(item: string, rest: seq<string>, result: map<string, string>, name: Option<string>)
    requires item != ""
    ensures HeaderFold([item] + rest, result, name) ==
              var step := HeaderStep(item, result, name);
              if step.Err? then Err(step.error) else HeaderFold(rest, step.value.0, step.value.1)
  {
    assert ([item] + rest)[0] == item && ([item] + rest)[1..] == rest;
  }

  /** After a header, a continuation line appends `item[0].strip()`, which is empty. */
  lemma ContinuationStep(c: string, result: map<string, string>, key: string)
    requires IsContinuation(c) && key in result
    ensures HeaderStep(c, result, Some(key)) == Ok((result, Some(key)))
  {
    StripSpace(c[0]);
    assert result[key] + Strip([c[0]]) == result[key];
    assert result[key := result[key] + Strip([c[0]])] == result;
  }

  /** A continuation line changes nothing. */
  lemma HeaderContinuation(l: string, c: string, rest: seq<string>, result: map<string, string>, name: Option<string>)
    requires IsHeaderLine(l) && IsContinuation(c)
    ensures HeaderFold([l, c] + rest, result, name) == HeaderFold([l] + rest, result, name)
  {
    HeaderStepLine(l, result, name);
    var (r1, n1) := HeaderStep(l, result, name).value;
    assert [l, c] + rest == [l] + ([c] + rest);
    HeaderFoldCons(l, [c] + rest, result, name);
    HeaderFoldCons(l, rest, result, name);
    HeaderFoldCons(c, rest, r1, n1);
    ContinuationStep(c, r1, HeaderOf(l).0);
  }

  /** A header line sets its key, or joins its value to the one already there. */
  lemma HeaderFoldLine(l: string, rest: seq<string>, result: map<string, string>, name: Option<string>)
    requires IsHeaderLine(l)
    ensures var (key, value) := HeaderOf(l);
            HeaderFold([l] + rest, result, name) ==
              HeaderFold(rest, result[key := if key in result then result[key] + ", " + value else value], Some(key))
  {
    HeaderStepLine(l, result, name);
    HeaderFoldCons(l, rest, result, name);
  }

  /** A repeated header is joined with `", "` in the order the lines came. */
  lemma HeaderRepeated(l1: string, l2: string, rest: seq<string>, result: map<string, string>, name: Option<string>)
    requires IsHeaderLine(l1) && IsHeaderLine(l2)
    requires HeaderOf(l1).0 == HeaderOf(l2).0 && HeaderOf(l1).0 !in result
    ensures HeaderFold([l1, l2] + rest, result, name) ==
              HeaderFold(rest, result[HeaderOf(l1).0 := HeaderOf(l1).1 + ", " + HeaderOf(l2).1], Some(HeaderOf(l1).0))
  {
    var key, v1, v2 := HeaderOf(l1).0, HeaderOf(l1).1, HeaderOf(l2).1;
    var r1 := result[key := v1];
    assert [l1, l2] + rest == [l1] + ([l2] + rest);
    HeaderFoldLine(l1, [l2] + rest, result, name);
    HeaderFoldLine(l2, rest, r1, Some(key));
    assert r1[key := r1[key] + ", " + v2] == result[key := v1 + ", " + v2];
  }

  /** One line keeps every variable, changes only header keys, and fails only as Malformed. */
  lemma HeaderStepKeys(item: string, result: map<string, string>, name: Option<string>)
    requires item != ""
    ensures HeaderStep(item, result, name).Err? ==> HeaderStep(item, result, name).error == Malformed
    ensures HeaderStep(item, result, name).Ok? ==>
              var r := HeaderStep(item, result, name).value.0;
              && (forall k :: k in result ==> k in r)
              && (forall k :: k in result && !IsHeaderKey(k) ==> r[k] == result[k])
              && (forall k :: k in r && k !in result ==> IsHeaderKey(k))
  {
    if !IsContinuation(item) && Find(item, ":").Some? {
      HeaderStepLine(item, result, name);
    }
  }

  /**
   * The header loop keeps every variable it starts from, leaves those that no
   * header can name untouched, adds only header keys, and fails only as Malformed.
   */
  lemma {:induction false} HeaderFoldKeys(lines: seq<string>, result: map<string, string>, name: Option<string>)
    ensures HeaderFold(lines, result, name).Err? ==> HeaderFold(lines, result, name).error == Malformed
    ensures HeaderFold(lines, result, name).Ok? ==>
              var r := HeaderFold(lines, result, name).value;
              && (forall k :: k in result ==> k in r)
              && (forall k :: k in result && !IsHeaderKey(k) ==> r[k] == result[k])
              && (forall k :: k in r && k !in result ==> IsHeaderKey(k))
    decreases |lines|
  {
    if |lines| > 0 && lines[0] != "" {
      HeaderStepKeys(lines[0], result, name);
      var step := HeaderStep(lines[0], result, name);
      if step.Ok? {
        HeaderFoldKeys(lines[1..], step.value.0, step.value.1);
      }
    }
  }

  // ---------------------------------------------------------------------------
  // parse_environ
  // ---------------------------------------------------------------------------

  /** The request line of a head. */
  function RequestLine(data: string): string
  {
    Split(data, "\r\n")[0]
  }

  /** The request line has exactly three space-separated tokens. */
  predicate ThreeTokens(line: string)
  {
    |Split(line, " ")| == 3
  }

  /** The version token is one that the parser serves. */
  predicate KnownVersion(line: string)
    requires ThreeTokens(line)
  {
    Split(line, " ")[2] == "HTTP/1.0" || Split(line, " ")[2] == "HTTP/1.1"
  }

  /** The raw path of the request target. */
  function RawPath(line: string): string
    requires ThreeTokens(line)
  {
    SplitTarget(Split(line, " ")[1]).0
  }

  /**
   * The failures of `parse_environ`, each exactly characterised: 414 for a long
   * request line, a plain exception (500) for a line that is not three tokens,
   * 505 for another version, 400 for a bad escape in the path; every other
   * failure comes from the header lines and is a plain exception.
   */
  lemma ParseEnvironErrors(data: string)
    ensures var line := RequestLine(data);
            && (ParseEnvironSpec(data) == Err(RequestTooLong) <==> |line| > MaxRequestLine)
            && (ParseEnvironSpec(data) == Err(VersionNotSupported) <==>
                  |line| <= MaxRequestLine && ThreeTokens(line) && !KnownVersion(line))
            && (ParseEnvironSpec(data) == Err(BadRequest) <==>
                  |line| <= MaxRequestLine && ThreeTokens(line) && KnownVersion(line) && DecodePath(RawPath(line)).None?)
  {
    var lines := Split(data, "\r\n");
    var line := lines[0];
    if |line| <= MaxRequestLine && ThreeTokens(line) && KnownVersion(line) {
      var words := Split(line, " ");
      var (path, query) := SplitTarget(words[1]);
      match DecodePath(path)
      case None =>
      case Some(p) =>
        HeaderFoldKeys(lines[1..], RequestVars(words[0], words[1], words[2], p, query), None);
    }
  }

  /** The six variables the request line of a head gives, when it is well formed. */
  function LineVars(data: string): map<string, string>
    requires ThreeTokens(RequestLine(data)) && KnownVersion(RequestLine(data))
    requires DecodePath(RawPath(RequestLine(data))).Some?
  {
    var words := Split(RequestLine(data), " ");
    RequestVars(words[0], words[1], words[2], DecodePath(RawPath(RequestLine(data))).value, SplitTarget(words[1]).1)
  }

  /**
   * A parsed head holds the six request-line variables, taken from the three
   * tokens and the split target, and otherwise only header keys.
   */
  lemma ParseEnvironKeys(data: string)
    requires ParseEnvironSpec(data).Ok?
    ensures ThreeTokens(RequestLine(data)) && KnownVersion(RequestLine(data))
    ensures DecodePath(RawPath(RequestLine(data))).Some?
    ensures forall k :: k in LineVars(data) ==> k in ParseEnvironSpec(data).value && ParseEnvironSpec(data).value[k] == LineVars(data)[k]
    ensures forall k :: k in ParseEnvironSpec(data).value ==> k in LineVars(data) || IsHeaderKey(k)
  {
    var lines := Split(data, "\r\n");
    var words := Split(lines[0], " ");
    var (path, query) := SplitTarget(words[1]);
    var p := DecodePath(path).value;
    var vars := RequestVars(words[0], words[1], words[2], p, query);
    assert ParseEnvironSpec(data) == HeaderFold(lines[1..], vars, None);
    HeaderFoldKeys(lines[1..], vars, None);
    assert vars == LineVars(data);
    RequestVarsNotHeaders(words[0], words[1], words[2], p, query);
  }

  /** No header line can overwrite a request-line variable. */
  lemma RequestVarsNotHeaders(verb: string, uri: string, version: string, path: string, query: string)
    ensures forall k :: k in RequestVars(verb, uri, version, path, query) ==> !IsHeaderKey(k)
  {
    var ks := RequestVars(verb, uri, version, path, query).Keys;
    assert ks == {"REQUEST_METHOD", "REQUEST_URI", "SERVER_PROTOCOL", "SCRIPT_NAME", "PATH_INFO", "QUERY_STRING"};
    assert "REQUEST_METHOD"[..5] == "REQUE";
    assert "REQUEST_URI"[..5] == "REQUE";
    assert "SERVER_PROTOCOL"[..5] == "SERVE";
    assert "SCRIPT_NAME"[..5] == "SCRIP";
    assert "PATH_INFO"[..5] == "PATH_";
    assert "QUERY_STRING"[..5] == "QUERY";
  }
}
