/**
 * The byte-string and string primitives the source relies on: `find`, `split`,
 * `join`, `strip`, `upper`, `int()` and the ordering of `<` on str and tuples.
 * A byte string is a `string` whose characters are octets (code points below 256),
 * so ISO-8859-1 decoding and encoding are the identity.
 */
module Text {
  import opened Types

  // ---------------------------------------------------------------------------
  // Finding and splitting
  // ---------------------------------------------------------------------------

  /** `pat` occurs in `s` starting at index `i`. */
  predicate OccursAt(s: string, pat: string, i: nat)
  {
    i + |pat| <= |s| && s[i..i + |pat|] == pat
  }

  /** `s.find(pat)`: the leftmost index at which `pat` occurs, if any. */
  function Find(s: string, pat: string): (r: Option<nat>)
    requires |pat| > 0
    ensures r.Some? ==> OccursAt(s, pat, r.value)
    decreases |s|
  {
    if |s| < |pat| then None
    else if s[..|pat|] == pat then Some(0)
    else
      match Find(s[1..], pat)
      case None => None
      case Some(i) =>
        assert s[1..][i..i + |pat|] == s[i + 1..i + 1 + |pat|];
        Some(i + 1)
  }

  lemma OccursShift(s: string, pat: string, j: nat)
    requires |s| > 0
    ensures OccursAt(s, pat, j + 1) <==> OccursAt(s[1..], pat, j)
  {
    if j + 1 + |pat| <= |s| {
      assert s[1..][j..j + |pat|] == s[j + 1..j + 1 + |pat|];
    }
  }

  /** Find returns the leftmost occurrence, and None only when there is none. */
  lemma {:induction false} FindLeftmost(s: string, pat: string, j: nat)
    requires |pat| > 0 && OccursAt(s, pat, j)
    ensures Find(s, pat).Some? && Find(s, pat).value <= j
    decreases |s|
  {
    if s[..|pat|] != pat {
      assert j > 0;
      OccursShift(s, pat, j - 1);
      FindLeftmost(s[1..], pat, j - 1);
    }
  }

  /** The pieces of `s` between the leftmost, non-overlapping occurrences of `sep`. */
  function Split(s: string, sep: string): (r: seq<string>)
    requires |sep| > 0
    ensures |r| >= 1
    decreases |s|
  {
    if |s| < |sep| then [s]
    else if s[..|sep|] == sep then [""] + Split(s[|sep|..], sep)
    else ConsFirst(s[0], Split(s[1..], sep))
  }

  /** Puts `c` in front of the first piece. */
  function ConsFirst(c: char, r: seq<string>): (q: seq<string>)
    requires |r| > 0
    ensures |q| == |r| && q[0] == [c] + r[0] && q[1..] == r[1..]
  {
    [[c] + r[0]] + r[1..]
  }

  /** `sep.join(parts)`. */
  function Join(parts: seq<string>, sep: string): string
  {
    if |parts| == 0 then ""
    else if |parts| == 1 then parts[0]
    else parts[0] + sep + Join(parts[1..], sep)
  }

  /** `b''.join(parts)`. */
  function Concat(parts: seq<string>): string
  {
    if |parts| == 0 then "" else parts[0] + Concat(parts[1..])
  }

  lemma JoinConsFirst(c: char, r: seq<string>, sep: string)
    requires |r| > 0
    ensures Join(ConsFirst(c, r), sep) == [c] + Join(r, sep)
  {
    var q := ConsFirst(c, r);
    if |r| > 1 {
      assert q[1..] == r[1..];
    }
  }

  /** `sep.join(s.split(sep)) == s`. */
  lemma {:induction false} JoinSplit(s: string, sep: string)
    requires |sep| > 0
    ensures Join(Split(s, sep), sep) == s
    decreases |s|
  {
    if |s| < |sep| {
    } else if s[..|sep|] == sep {
      var rest := Split(s[|sep|..], sep);
      assert Split(s, sep) == [""] + rest;
      JoinSplit(s[|sep|..], sep);
      JoinAppend("", rest, sep);
      assert "" + sep + s[|sep|..] == s;
    } else {
      var rest := Split(s[1..], sep);
      assert Split(s, sep) == ConsFirst(s[0], rest);
      JoinSplit(s[1..], sep);
      JoinConsFirst(s[0], rest, sep);
      assert [s[0]] + s[1..] == s;
    }
  }

  lemma JoinAppend(x: string, rest: seq<string>, sep: string)
    requires |rest| > 0
    ensures Join([x] + rest, sep) == x + sep + Join(rest, sep)
  {
    assert ([x] + rest)[1..] == rest;
  }

  /** A character that `c in s` would not find. */
  predicate Lacks(s: string, c: char)
  {
    forall k :: 0 <= k < |s| ==> s[k] != c
  }

  lemma {:induction false} SplitLacking(s: string, c: char)
    requires Lacks(s, c)
    ensures Split(s, [c]) == [s]
    decreases |s|
  {
    if |s| > 0 {
      assert s[..1] == [s[0]];
      SplitLacking(s[1..], c);
      assert s == [s[0]] + s[1..];
    }
  }

  /** Splitting on a character distributes over an occurrence of that character. */
  lemma {:induction false} SplitAround(x: string, c: char, y: string)
    ensures Split(x + [c] + y, [c]) == Split(x, [c]) + Split(y, [c])
    decreases |x|
  {
    var s := x + [c] + y;
    if |x| == 0 {
      assert s[..1] == [c] && s[1..] == y;
    } else {
      assert s[..1] == [x[0]] && x[..1] == [x[0]];
      assert s[1..] == x[1..] + [c] + y;
      SplitAround(x[1..], c, y);
      if x[0] != c {
        var q := Split(x[1..], [c]);
        assert (q + Split(y, [c]))[1..] == q[1..] + Split(y, [c]);
      }
    }
  }

  /** No piece of a split holds the separator. */
  lemma {:induction false} SplitPiecesLack(s: string, c: char)
    ensures forall i :: 0 <= i < |Split(s, [c])| ==> Lacks(Split(s, [c])[i], c)
    decreases |s|
  {
    if |s| > 0 {
      SplitPiecesLack(s[1..], c);
      var r := Split(s[1..], [c]);
      assert s[..1] == [s[0]];
      if s[0] != c {
        var q := ConsFirst(s[0], r);
        assert Lacks(q[0], c) by {
          forall k | 0 <= k < |q[0]| ensures q[0][k] != c {
            if k > 0 { assert q[0][k] == r[0][k - 1]; }
          }
        }
        assert forall i :: 1 <= i < |q| ==> q[i] == r[i];
      } else {
        assert forall i :: 1 <= i < |Split(s, [c])| ==> Split(s, [c])[i] == r[i - 1];
      }
    }
  }

  /** Splitting a join of pieces without the separator gives the pieces back. */
  lemma {:induction false} SplitJoin(xs: seq<string>, c: char)
    requires |xs| > 0 && forall i :: 0 <= i < |xs| ==> Lacks(xs[i], c)
    ensures Split(Join(xs, [c]), [c]) == xs
    decreases |xs|
  {
    if |xs| == 1 {
      SplitLacking(xs[0], c);
    } else {
      SplitJoin(xs[1..], c);
      SplitAround(xs[0], c, Join(xs[1..], [c]));
      SplitLacking(xs[0], c);
      assert xs == [xs[0]] + xs[1..];
    }
  }

  /** Only the empty string splits into one empty piece. */
  lemma SplitEmptyPiece(s: string, c: char)
    requires Split(s, [c]) == [""]
    ensures s == ""
  {
    JoinSplit(s, [c]);
  }

  /** A prefix without the separator joins the first piece. */
  lemma {:induction false} SplitPrefixLacking(x: string, c: char, y: string)
    requires Lacks(x, c)
    ensures Split(x + y, [c]) == ConsAll(x, Split(y, [c]))
    decreases |x|
  {
    if |x| > 0 {
      var s := x + y;
      assert x[0] != c;
      assert s[..1] == [x[0]] && s[1..] == x[1..] + y;
      assert Lacks(x[1..], c) by {
        forall k | 0 <= k < |x| - 1 ensures x[1..][k] != c { assert x[1..][k] == x[k + 1]; }
      }
      SplitPrefixLacking(x[1..], c, y);
      ConsFirstAll(x[0], x[1..], Split(y, [c]));
      assert [x[0]] + x[1..] == x;
    } else {
      var r := Split(y, [c]);
      assert x + y == y && x + r[0] == r[0];
      assert ConsAll(x, r) == [r[0]] + r[1..] == r;
    }
  }

  lemma ConsFirstAll(c: char, x: string, r: seq<string>)
    requires |r| > 0
    ensures ConsFirst(c, ConsAll(x, r)) == ConsAll([c] + x, r)
  {
    assert [c] + (x + r[0]) == ([c] + x) + r[0];
  }

  /** Puts `x` in front of the first piece. */
  function ConsAll(x: string, r: seq<string>): (q: seq<string>)
    requires |r| > 0
    ensures |q| == |r| && q[0] == x + r[0] && q[1..] == r[1..]
  {
    [x + r[0]] + r[1..]
  }

  // ---------------------------------------------------------------------------
  // The bytes regular expression `(?i)%2F`
  // ---------------------------------------------------------------------------

  /** `%2F` or `%2f` starts at index `i` of `s`. */
  predicate QuotedSlashAt(s: string, i: nat)
  {
    i + 3 <= |s| && s[i] == '%' && s[i + 1] == '2' && (s[i + 2] == 'F' || s[i + 2] == 'f')
  }

  /** `re.split(b'(?i)%2F', s)`: the pieces between the leftmost, non-overlapping matches. */
  function SplitQuotedSlash(s: string): (r: seq<string>)
    ensures |r| >= 1
    decreases |s|
  {
    if |s| < 3 then [s]
    else if QuotedSlashAt(s, 0) then [""] + SplitQuotedSlash(s[3..])
    else ConsFirst(s[0], SplitQuotedSlash(s[1..]))
  }

  lemma {:induction false} SplitQuotedSlashLacking(s: string)
    requires Lacks(s, '%')
    ensures SplitQuotedSlash(s) == [s]
    decreases |s|
  {
    if |s| >= 3 {
      SplitQuotedSlashLacking(s[1..]);
      assert s == [s[0]] + s[1..];
    }
  }

  lemma {:induction false} SplitQuotedSlashAfter(a: string, q: string, b: string)
    requires Lacks(a, '%')
    requires q == "%2F" || q == "%2f"
    ensures SplitQuotedSlash(a + q + b) == [a] + SplitQuotedSlash(b)
    decreases |a|
  {
    var s := a + q + b;
    if |a| == 0 {
      assert s == q + b && s[3..] == b;
    } else {
      assert a[0] != '%';
      assert s[1..] == a[1..] + q + b;
      assert Lacks(a[1..], '%') by {
        forall k | 0 <= k < |a| - 1 ensures a[1..][k] != '%' { assert a[1..][k] == a[k + 1]; }
      }
      SplitQuotedSlashAfter(a[1..], q, b);
      assert [a[0]] + a[1..] == a;
    }
  }

  // ---------------------------------------------------------------------------
  // Whitespace, case and character classes
  // ---------------------------------------------------------------------------

  /** `str.isspace()` for the characters U+0000 to U+00FF. */
  predicate IsSpace(c: char)
  {
    var n := c as int;
    n == 32 || 9 <= n <= 13 || 28 <= n <= 31 || n == 0x85 || n == 0xA0
  }

  /** The whitespace that `int()` skips around a bytes argument. */
  predicate IsAsciiSpace(c: char)
  {
    c == ' ' || '\t' <= c <= '\r'
  }

  function TrimLeft(s: string): (r: string)
    ensures |r| <= |s| && r == s[|s| - |r|..]
    ensures r == [] || !IsSpace(r[0])
    ensures forall k :: 0 <= k < |s| - |r| ==> IsSpace(s[k])
  {
    if |s| > 0 && IsSpace(s[0]) then TrimLeft(s[1..]) else s
  }

  function TrimRight(s: string): (r: string)
    ensures |r| <= |s| && r == s[..|r|]
    ensures r == [] || !IsSpace(r[|r| - 1])
    ensures forall k :: |r| <= k < |s| ==> IsSpace(s[k])
  {
    if |s| > 0 && IsSpace(s[|s| - 1]) then TrimRight(s[..|s| - 1]) else s
  }

  /** `str.strip()`. */
  function Strip(s: string): string
  {
    TrimRight(TrimLeft(s))
  }

  lemma StripSpace(c: char)
    requires IsSpace(c)
    ensures Strip([c]) == ""
  {
  }

  /** `str.upper()` of one character in U+0000 to U+00FF. */
  function UpperChar(c: char): (r: string)
    ensures forall k :: 0 <= k < |r| ==> !('a' <= r[k] <= 'z')
  {
    var n := c as int;
    if 'a' <= c <= 'z' then [(n - 32) as char]
    else if n == 0xB5 then [0x39C as char]
    else if n == 0xDF then "SS"
    else if 0xE0 <= n <= 0xFE && n != 0xF7 then [(n - 32) as char]
    else if n == 0xFF then [0x178 as char]
    else [c]
  }

  /** `str.upper()`. */
  function Upper(s: string): (r: string)
    ensures forall k :: 0 <= k < |r| ==> !('a' <= r[k] <= 'z')
  {
    if |s| == 0 then "" else UpperChar(s[0]) + Upper(s[1..])
  }

  /** `s.replace(from, to)` for single characters. */
  function ReplaceChar(s: string, from: char, to: char): (r: string)
    ensures |r| == |s|
    ensures forall k :: 0 <= k < |s| ==> r[k] == (if s[k] == from then to else s[k])
  {
    seq(|s|, k requires 0 <= k < |s| => if s[k] == from then to else s[k])
  }

  // ---------------------------------------------------------------------------
  // Integer parsing and printing
  // ---------------------------------------------------------------------------

  predicate IsDigit(c: char)
  {
    '0' <= c <= '9'
  }

  /** Python's decimal literal grammar: digit (["_"] digit)*. */
  predicate DecimalDigits(s: string)
  {
    && |s| > 0 && IsDigit(s[0]) && IsDigit(s[|s| - 1])
    && (forall k :: 0 <= k < |s| ==> IsDigit(s[k]) || s[k] == '_')
    && (forall k :: 0 <= k < |s| - 1 ==> s[k] == '_' ==> s[k + 1] != '_')
  }

  /** The value of a string of digits, ignoring underscores. */
  function DecimalValue(s: string): nat
  {
    if |s| == 0 then 0
    else if IsDigit(s[|s| - 1]) then DecimalValue(s[..|s| - 1]) * 10 + (s[|s| - 1] as int - '0' as int)
    else DecimalValue(s[..|s| - 1])
  }

  /** `int(s)` for a str argument: surrounding whitespace, an optional sign, digits. */
  function PyInt(s: string): (r: Option<int>)
    ensures r.Some? && |Strip(s)| > 0 && IsDigit(Strip(s)[0]) ==> r.value >= 0
  {
    var t := Strip(s);
    if |t| > 0 && (t[0] == '+' || t[0] == '-') then
      if DecimalDigits(t[1..]) then
        var v: int := DecimalValue(t[1..]);
        Some(if t[0] == '-' then -v else v)
      else None
    else if DecimalDigits(t) then Some(DecimalValue(t))
    else None
  }

  function HexDigitValue(c: char): Option<nat>
  {
    if '0' <= c <= '9' then Some(c as int - '0' as int)
    else if 'a' <= c <= 'f' then Some(c as int - 'a' as int + 10)
    else if 'A' <= c <= 'F' then Some(c as int - 'A' as int + 10)
    else None
  }

  predicate IsHexDigit(c: char)
  {
    HexDigitValue(c).Some?
  }

  /**
   * `int(t, 16)` for a bytes argument of at most two characters: ASCII whitespace
   * around it, an optional sign, then one or two hexadecimal digits. (With at most
   * two characters no underscore or `0x` prefix can be well formed.)
   */
  function PyHexInt(t: string): (r: Option<int>)
    requires |t| <= 2
    ensures |t| == 2 && IsHexDigit(t[0]) && IsHexDigit(t[1]) ==>
              r == Some(HexDigitValue(t[0]).value * 16 + HexDigitValue(t[1]).value)
    ensures t == [] ==> r.None?
    ensures |t| > 0 && !IsHexDigit(t[0]) && !IsAsciiSpace(t[0]) && t[0] != '+' && t[0] != '-' ==> r.None?
  {
    var u := if |t| > 0 && IsAsciiSpace(t[0]) then t[1..] else t;
    var v := if |u| > 0 && IsAsciiSpace(u[|u| - 1]) then u[..|u| - 1] else u;
    if |v| == 2 && IsHexDigit(v[0]) && IsHexDigit(v[1]) then
      Some(HexDigitValue(v[0]).value * 16 + HexDigitValue(v[1]).value)
    else if |v| == 2 && (v[0] == '+' || v[0] == '-') && IsHexDigit(v[1]) then
      var d: int := HexDigitValue(v[1]).value;
      Some(if v[0] == '-' then -d else d)
    else if |v| == 1 && IsHexDigit(v[0]) then
      Some(HexDigitValue(v[0]).value)
    else None
  }

  /** `str(n)` for a natural number. */
  function DecimalString(n: nat): (r: string)
    ensures |r| > 0 && forall k :: 0 <= k < |r| ==> IsDigit(r[k])
    ensures DecimalValue(r) == n
  {
    var d := ['0' + (n % 10) as char];
    if n < 10 then d else DecimalString(n / 10) + d
  }

  // ---------------------------------------------------------------------------
  // Python's ordering of str and of tuples of str
  // ---------------------------------------------------------------------------

  /** `a < b` on str: code point by code point, a proper prefix first. */
  predicate StrLess(a: string, b: string)
    decreases |a|
  {
    |b| > 0 && (|a| == 0 || a[0] < b[0] || (a[0] == b[0] && StrLess(a[1..], b[1..])))
  }

  /** `a < b` on tuples of str: element by element, a proper prefix first. */
  predicate TupleLess(a: seq<string>, b: seq<string>)
    decreases |a|
  {
    |b| > 0 && (|a| == 0 || StrLess(a[0], b[0]) || (a[0] == b[0] && TupleLess(a[1..], b[1..])))
  }

  lemma {:induction false} StrLessIrreflexive(a: string)
    ensures !StrLess(a, a)
    decreases |a|
  {
    if |a| > 0 { StrLessIrreflexive(a[1..]); }
  }

  lemma {:induction false} StrLessAsymmetric(a: string, b: string)
    requires StrLess(a, b)
    ensures !StrLess(b, a)
    decreases |a|
  {
    if |a| > 0 && a[0] == b[0] { StrLessAsymmetric(a[1..], b[1..]); }
  }

  lemma {:induction false} StrLessTotal(a: string, b: string)
    requires a != b
    ensures StrLess(a, b) || StrLess(b, a)
    decreases |a|
  {
    if |a| > 0 && |b| > 0 && a[0] == b[0] {
      assert a == [a[0]] + a[1..] && b == [b[0]] + b[1..];
      StrLessTotal(a[1..], b[1..]);
    }
  }

  lemma {:induction false} StrLessTransitive(a: string, b: string, c: string)
    requires StrLess(a, b) && StrLess(b, c)
    ensures StrLess(a, c)
    decreases |a|
  {
    if |a| > 0 && a[0] == b[0] && b[0] == c[0] {
      StrLessTransitive(a[1..], b[1..], c[1..]);
    }
  }

  lemma {:induction false} TupleLessAsymmetric(a: seq<string>, b: seq<string>)
    requires TupleLess(a, b)
    ensures !TupleLess(b, a)
    decreases |a|
  {
    if |a| > 0 {
      if StrLess(a[0], b[0]) {
        StrLessAsymmetric(a[0], b[0]);
        StrLessIrreflexive(a[0]);
      } else {
        TupleLessAsymmetric(a[1..], b[1..]);
        StrLessIrreflexive(a[0]);
      }
    }
  }

  lemma {:induction false} TupleLessTotal(a: seq<string>, b: seq<string>)
    requires a != b
    ensures TupleLess(a, b) || TupleLess(b, a)
    decreases |a|
  {
    if |a| > 0 && |b| > 0 {
      if a[0] == b[0] {
        assert a == [a[0]] + a[1..] && b == [b[0]] + b[1..];
        TupleLessTotal(a[1..], b[1..]);
      } else {
        StrLessTotal(a[0], b[0]);
      }
    }
  }

  lemma {:induction false} TupleLessTransitive(a: seq<string>, b: seq<string>, c: seq<string>)
    requires TupleLess(a, b) && TupleLess(b, c)
    ensures TupleLess(a, c)
    decreases |a|
  {
    if |a| > 0 {
      StrLessIrreflexive(a[0]);
      StrLessIrreflexive(b[0]);
      if a[0] == b[0] && b[0] == c[0] {
        TupleLessTransitive(a[1..], b[1..], c[1..]);
      } else if StrLess(a[0], b[0]) && StrLess(b[0], c[0]) {
        StrLessTransitive(a[0], b[0], c[0]);
      }
    }
  }

  /** `x <= y` on tuples, stated as "not y < x"; it is transitive. */
  lemma TupleNotLessTransitive(a: seq<string>, b: seq<string>, c: seq<string>)
    requires !TupleLess(b, a) && !TupleLess(c, b)
    ensures !TupleLess(c, a)
  {
    if TupleLess(c, a) {
      if a == b {
      } else if b == c {
      } else {
        TupleLessTotal(a, b);
        TupleLessTransitive(c, a, b);
      }
    }
  }

  /** A common prefix does not change the order of two strings. */
  lemma {:induction false} StrLessPrepend(s: string, a: string, b: string)
    ensures StrLess(s + a, s + b) <==> StrLess(a, b)
    decreases |s|
  {
    if |s| > 0 {
      assert (s + a)[0] == s[0] && (s + a)[1..] == s[1..] + a;
      assert (s + b)[0] == s[0] && (s + b)[1..] == s[1..] + b;
      StrLessPrepend(s[1..], a, b);
    } else {
      assert s + a == a && s + b == b;
    }
  }

  /** A proper prefix comes first. */
  lemma ProperPrefixLess(s: string, t: string)
    requires |t| > 0
    ensures StrLess(s, s + t) && !StrLess(s + t, s)
  {
    StrLessPrepend(s, "", t);
    StrLessPrepend(s, t, "");
    assert s + "" == s;
  }
}
