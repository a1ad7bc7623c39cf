/** Python 2's double-quoted string literals, and which texts can be put between the quotes as they are. */
module PyLiterals {
  import opened Wrappers

  /** What ends a line of Python, or the program. */
  predicate EndsLine(c: char) {
    c in "\n\r\0"
  }

  predicate IsOctal(c: char) { '0' <= c <= '7' }

  predicate IsHex(c: char) { '0' <= c <= '9' || 'a' <= c <= 'f' || 'A' <= c <= 'F' }

  function HexDigit(c: char): (d: nat)
    requires IsHex(c)
    ensures d < 16
  {
    if c <= '9' then c as int - '0' as int
    else if c >= 'a' then c as int - 'a' as int + 10
    else c as int - 'A' as int + 10
  }

  /** The octal digits of an escape, three at most. */
  function OctalRun(s: string): (n: nat)
    requires s != "" && IsOctal(s[0])
    ensures 1 <= n <= 3 && n <= |s| && forall k :: 0 <= k < n ==> IsOctal(s[k])
  {
    if |s| < 2 || !IsOctal(s[1]) then 1 else if |s| < 3 || !IsOctal(s[2]) then 2 else 3
  }

  function OctalValue(s: string): nat
    requires forall k :: 0 <= k < |s| ==> IsOctal(s[k])
  {
    if s == "" then 0 else
    var last := s[|s| - 1];
    assert IsOctal(last);
    8 * OctalValue(s[..|s| - 1]) + (last as int - '0' as int)
  }

  /** A character that makes an escape of the backslash before it. */
  predicate Escapes(c: char) {
    c in "\n\\'\"abfnrtvx" || IsOctal(c)
  }

  /** What the character after the backslash stands for, for the escapes of one character. */
  function Short(c: char): string {
    if c == '\n' then "" else if c == 'a' then "\U{07}" else if c == 'b' then "\U{08}" else if c == 'f' then "\U{0c}"
    else if c == 'n' then "\n" else if c == 'r' then "\r" else if c == 't' then "\t" else if c == 'v' then "\U{0b}"
    else [c]
  }

  /** What a backslash before s stands for, and how many characters of s that takes; None for a bad escape. */
  function Escape(s: string): (r: Option<(string, nat)>)
    ensures r.Some? ==> r.value.1 <= |s|
  {
    if s == "" || !Escapes(s[0]) then Some(("\\", 0))
    else if IsOctal(s[0]) then Some(([(OctalValue(s[..OctalRun(s)]) % 256) as char], OctalRun(s)))
    else if s[0] == 'x' then
      if |s| < 3 || !IsHex(s[1]) || !IsHex(s[2]) then None
      else Some(([(16 * HexDigit(s[1]) + HexDigit(s[2])) as char], 3))
    else Some((Short(s[0]), 1))
  }

  /** Reads a literal from behind its opening quote: its value and what comes after the closing quote. */
  function ReadLit(s: string): (r: Option<(string, string)>)
    ensures r.Some? ==> |r.value.1| < |s|
    decreases |s|
  {
    if s == "" || EndsLine(s[0]) then None
    else if s[0] == '"' then Some(("", s[1..]))
    else if s[0] == '\\' then
      match Escape(s[1..])
      case None => None
      case Some((x, k)) => After(x, ReadLit(s[1 + k..]))
    else After([s[0]], ReadLit(s[1..]))
  }

  function After(x: string, r: Option<(string, string)>): Option<(string, string)> {
    match r
    case None => None
    case Some((v, rest)) => Some((x + v, rest))
  }

  /** No quote, no end of a line, and behind every backslash a character of the text that is no escape with it. */
  predicate Plain(v: string) {
    v == "" || (
      && v[0] != '"' && !EndsLine(v[0])
      && (v[0] == '\\' ==> |v| >= 2 && !Escapes(v[1]))
      && Plain(v[1..]))
  }

  /** A plain text is read as it is, and then what follows it. */
  lemma {:induction false} PlainReads(v: string, s: string)
    requires Plain(v)
    ensures ReadLit(v + s) == After(v, ReadLit(s))
  {
    if v == "" {
      assert v + s == s;
      AfterNothing(ReadLit(s));
    } else {
      assert (v + s)[1..] == v[1..] + s;
      PlainReads(v[1..], s);
      assert [v[0]] + v[1..] == v;
      if v[0] == '\\' { assert (v[1..] + s)[0] == v[1]; }
      AfterTwice([v[0]], v[1..], ReadLit(s));
    }
  }

  lemma AfterNothing(r: Option<(string, string)>)
    ensures After("", r) == r
  {
    if r.Some? { assert "" + r.value.0 == r.value.0; }
  }

  lemma AfterTwice(x: string, v: string, r: Option<(string, string)>)
    ensures After(x, After(v, r)) == After(x + v, r)
  {
    if r.Some? { assert (x + v) + r.value.0 == x + (v + r.value.0); }
  }

  lemma PlainIsReadBack(v: string, rest: string)
    requires Plain(v)
    ensures ReadLit(v + "\"" + rest) == Some((v, rest))
  {
    assert v + "\"" + rest == v + ("\"" + rest);
    PlainReads(v, "\"" + rest);
    assert ("\"" + rest)[1..] == rest && v + "" == v;
  }

  lemma {:induction false} OrdinaryIsPlain(v: string)
    requires forall k :: 0 <= k < |v| ==> v[k] != '"' && v[k] != '\\' && !EndsLine(v[k])
    ensures Plain(v)
  {
    if v != "" { OrdinaryIsPlain(v[1..]); }
  }

  /** A text without a quote: the literal ends at the quote after it, or that quote becomes a part of the value. */
  ghost predicate Misread(w: string, r: Option<(string, string)>) {
    r.Some? ==>
      || (|r.value.0| <= |w| && r.value.0 != w)
      || exists d :: 0 <= d < |w| && d < |r.value.0| && r.value.0[d] == '"'
  }

  lemma {:induction false} EscapedIsMisread(w: string, rest: string)
    requires '"' !in w && !Plain(w)
    ensures Misread(w, ReadLit(w + "\"" + rest))
    decreases |w|
  {
    var s := w + "\"" + rest;
    var r := ReadLit(s);
    if r.Some? && w[0] != '\\' {
      StepIsMisread(w, rest, [w[0]], 0);
    } else if r.Some? && |w| == 1 {
      assert s[1..][0] == '"' && Escape(s[1..]) == Some(("\"", 1));
      assert r.value.0[0] == '"';
    } else if r.Some? {
      assert s[1..] == w[1..] + "\"" + rest;
      EscapeStays(w[1..], rest);
      var e := Escape(s[1..]).value;
      StepIsMisread(w, rest, e.0, e.1);
    }
  }

  /** An escape that begins in a text without a quote ends in it. */
  lemma EscapeStays(u: string, rest: string)
    requires u != "" && '"' !in u
    ensures var e := Escape(u + "\"" + rest);
            e.Some? ==> e.value.1 <= |u| && |e.value.0| <= 1 && (e.value.1 == 0 ==> e.value.0 == "\\" && !Escapes(u[0]))
  {
    var s := u + "\"" + rest;
    assert s[|u|] == '"' && s[0] == u[0];
  }

  lemma {:induction false} StepIsMisread(w: string, rest: string, x: string, k: nat)
    requires w != "" && '"' !in w && 1 + k <= |w| && |x| <= 1
    requires k == 0 ==> x == [w[0]] && !Plain(w[1..])
    ensures Misread(w, After(x, ReadLit((w + "\"" + rest)[1 + k..])))
    decreases |w|, 0
  {
    var u := w[1 + k..];
    assert (w + "\"" + rest)[1 + k..] == u + "\"" + rest;
    if Plain(u) {
      PlainIsReadBack(u, rest);
    } else {
      EscapedIsMisread(u, rest);
      MisreadAfter(w, u, x, ReadLit(u + "\"" + rest));
    }
  }

  lemma MisreadAfter(w: string, u: string, x: string, r: Option<(string, string)>)
    requires |u| < |w| && u == w[|w| - |u|..] && |x| <= 1 && Misread(u, r)
    requires |u| + 1 == |w| ==> x == [w[0]]
    ensures Misread(w, After(x, r))
  {
    if r.Some? {
      var v := r.value.0;
      if d :| 0 <= d < |u| && d < |v| && v[d] == '"' {
        assert (x + v)[d + |x|] == '"';
      }
    }
  }

  /** The first quote of a text ends the literal, or is read as a part of it before its place. */
  lemma QuotedIsMisread(v: string, rest: string)
    requires '"' in v
    ensures var r := ReadLit(v + "\"" + rest); r.Some? ==> r.value.0 != v
  {
    var k := FirstQuote(v);
    var w, after := v[..k], v[k + 1..] + "\"" + rest;
    assert v + "\"" + rest == w + "\"" + after;
    if Plain(w) {
      PlainIsReadBack(w, after);
    } else {
      EscapedIsMisread(w, after);
    }
  }

  function FirstQuote(v: string): (k: nat)
    requires '"' in v
    ensures k < |v| && v[k] == '"' && '"' !in v[..k]
  {
    if v[0] == '"' then 0 else 1 + FirstQuote(v[1..])
  }

  /** A literal is read back exactly when what stands between its quotes is plain. */
  lemma LiteralIsReadBack(v: string, rest: string)
    ensures var r := ReadLit(v + "\"" + rest); (r.Some? && r.value.0 == v) <==> Plain(v)
    ensures Plain(v) ==> ReadLit(v + "\"" + rest) == Some((v, rest))
  {
    if Plain(v) {
      PlainIsReadBack(v, rest);
    } else if '"' !in v {
      EscapedIsMisread(v, rest);
    } else {
      QuotedIsMisread(v, rest);
    }
  }
}
