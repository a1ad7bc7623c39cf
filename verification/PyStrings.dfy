/** The Python string operations the models use. */
module PyStrings {
  import opened Wrappers

  function StartsWith(s: string, p: string): bool {
    |p| <= |s| && s[..|p|] == p
  }

  function EndsWith(s: string, p: string): bool {
    |p| <= |s| && s[|s| - |p|..] == p
  }

  function Contains(s: string, p: string): bool {
    exists k | 0 <= k <= |s| :: StartsWith(s[k..], p)
  }

  /** s.split(sep): cuts at the leftmost occurrences, which do not overlap. */
  function Split(s: string, sep: string): (r: seq<string>)
    requires sep != ""
    ensures |r| > 0
    decreases |s|
  {
    if s == "" then [""]
    else if StartsWith(s, sep) then [""] + Split(s[|sep|..], sep)
    else var r := Split(s[1..], sep); [[s[0]] + r[0]] + r[1..]
  }

  /** sep.join(parts). */
  function Join(parts: seq<string>, sep: string): string {
    if parts == [] then ""
    else if |parts| == 1 then parts[0]
    else parts[0] + sep + Join(parts[1..], sep)
  }

  /** s[1:-1], empty when too short. */
  function Inner(s: string): string {
    if |s| < 2 then "" else s[1..|s| - 1]
  }

  /** s[:-1]. */
  function Init(s: string): string {
    if s == "" then "" else s[..|s| - 1]
  }

  /** s[1:]. */
  function Tail(s: string): string {
    if s == "" then "" else s[1..]
  }

  function UpperChar(c: char): char {
    if 'a' <= c <= 'z' then ((c as int) - 32) as char else c
  }

  function Upper(s: string): (r: string)
    ensures |r| == |s|
  {
    seq(|s|, k requires 0 <= k < |s| => UpperChar(s[k]))
  }

  function LowerChar(c: char): char {
    if 'A' <= c <= 'Z' then (c as int + 32) as char else c
  }

  function Lower(s: string): string {
    seq(|s|, k requires 0 <= k < |s| => LowerChar(s[k]))
  }

  /** Changing case pairs the letters of the two alphabets in their order and leaves all else alone. */
  lemma CaseOfLetters(c: char)
    ensures 'a' <= c <= 'z' ==> UpperChar(c) as int - 'A' as int == c as int - 'a' as int
    ensures 'A' <= c <= 'Z' ==> LowerChar(c) as int - 'a' as int == c as int - 'A' as int
    ensures !('a' <= c <= 'z') ==> UpperChar(c) == c
    ensures !('A' <= c <= 'Z') ==> LowerChar(c) == c
  {
  }

  predicate IsSpace(c: char) {
    c in " \t\n\r\U{0b}\U{0c}"
  }

  /** s.strip() */
  function Strip(s: string): string
    decreases |s|
  {
    if s == "" then ""
    else if IsSpace(s[0]) then Strip(s[1..])
    else if IsSpace(s[|s| - 1]) then Strip(s[..|s| - 1])
    else s
  }

  /** The blanks are the space and the five control characters that move the print position. */
  lemma SpacesAre(c: char)
    ensures IsSpace(c) <==> c == ' ' || 9 <= c as int <= 13
  {
  }

  ghost predicate AllSpaces(s: string) {
    forall k :: 0 <= k < |s| ==> IsSpace(s[k])
  }

  /** Stripping takes exactly the blanks at both ends off. */
  lemma {:induction false} StripIs(a: string, x: string, b: string)
    requires AllSpaces(a) && AllSpaces(b) && (x != "" ==> !IsSpace(x[0]) && !IsSpace(x[|x| - 1]))
    ensures Strip(a + x + b) == x
    decreases |a| + |b|
  {
    var s := a + x + b;
    if a != "" {
      assert s[0] == a[0] && s[1..] == a[1..] + x + b;
      StripIs(a[1..], x, b);
    } else if b != "" {
      assert s[|s| - 1] == b[|b| - 1] && s[..|s| - 1] == a + x + b[..|b| - 1];
      StripIs(a, x, b[..|b| - 1]);
      if x == "" { assert s == b && s[1..] == "" + x + b[1..]; StripIs("", x, b[1..]); }
    } else {
      assert s == x;
    }
  }

  lemma Begins(p: string, rest: string)
    ensures StartsWith(p + rest, p) && (p + rest)[|p|..] == rest
  {
  }

  // ----- decimal numbers -----

  predicate IsDigit(c: char) { '0' <= c <= '9' }

  function Digits(s: string): Option<nat> {
    if s == "" then Some(0)
    else if !IsDigit(s[|s| - 1]) then None
    else match Digits(s[..|s| - 1])
      case None => None
      case Some(n) => Some(10 * n + (s[|s| - 1] as int - '0' as int))
  }

  function Decimal(n: nat): string {
    if n < 10 then ["0123456789"[n]] else Decimal(n / 10) + ["0123456789"[n % 10]]
  }

  lemma {:induction false} DecimalDigits(n: nat)
    ensures |Decimal(n)| > 0 && forall k :: 0 <= k < |Decimal(n)| ==> Decimal(n)[k] in "0123456789"
  {
    if n >= 10 { DecimalDigits(n / 10); }
  }

  /** A number is read back from its digits, which do not begin with a nought unless it is nought. */
  lemma {:induction false} DigitsOfDecimal(n: nat)
    ensures Digits(Decimal(n)) == Some(n) && Decimal(n) != "" && (n > 0 ==> Decimal(n)[0] != '0')
  {
    var d := "0123456789"[n % 10];
    assert d as int - '0' as int == n % 10;
    if n >= 10 {
      DigitsOfDecimal(n / 10);
      assert Decimal(n)[..|Decimal(n)| - 1] == Decimal(n / 10);
    } else {
      assert Decimal(n) == [d] && Decimal(n)[..0] == "";
    }
  }

  // ----- split and join -----

  /** Replacing by split and join, one step at a time. */
  lemma JoinSplitSteps(s: string, sep: string, glue: string)
    requires sep != ""
    ensures s == "" ==> Join(Split(s, sep), glue) == ""
    ensures s != "" && StartsWith(s, sep) ==> Join(Split(s, sep), glue) == glue + Join(Split(s[|sep|..], sep), glue)
    ensures s != "" && !StartsWith(s, sep) ==> Join(Split(s, sep), glue) == [s[0]] + Join(Split(s[1..], sep), glue)
  {
    if s != "" && StartsWith(s, sep) {
      var r := Split(s[|sep|..], sep);
      assert ([""] + r)[1..] == r && "" + glue + Join(r, glue) == glue + Join(r, glue);
    } else if s != "" {
      var r := Split(s[1..], sep);
      var h := [[s[0]] + r[0]] + r[1..];
      assert h[1..] == r[1..];
      if |r| > 1 {
        assert ([s[0]] + r[0]) + glue + Join(r[1..], glue) == [s[0]] + (r[0] + glue + Join(r[1..], glue));
      }
    }
  }

  lemma {:induction false} JoinUndoesSplit(s: string, sep: string)
    requires sep != ""
    ensures Join(Split(s, sep), sep) == s
    decreases |s|
  {
    JoinSplitSteps(s, sep, sep);
    if s != "" {
      if StartsWith(s, sep) {
        JoinUndoesSplit(s[|sep|..], sep);
      } else {
        JoinUndoesSplit(s[1..], sep);
      }
    }
  }

  lemma SplitHead(s: string, sep: string, c: char)
    requires sep != "" && !StartsWith([c] + s, sep)
    ensures Split([c] + s, sep) == [[c] + Split(s, sep)[0]] + Split(s, sep)[1..]
  {
    assert ([c] + s)[1..] == s;
  }

  lemma JoinHead(x: char, head: string, rest: seq<string>, glue: string)
    ensures Join([[x] + head] + rest, glue) == [x] + Join([head] + rest, glue)
  {
    assert ([[x] + head] + rest)[1..] == rest && ([head] + rest)[1..] == rest;
    if rest != [] {
      assert ([x] + head) + glue + Join(rest, glue) == [x] + (head + glue + Join(rest, glue));
    }
  }

  lemma JoinEmptyHead(rest: seq<string>, glue: string)
    requires rest != []
    ensures Join([""] + rest, glue) == glue + Join(rest, glue)
  {
    assert ([""] + rest)[1..] == rest;
    assert "" + glue + Join(rest, glue) == glue + Join(rest, glue);
  }

  lemma SplitAtSep(s: string, sep: string)
    requires sep != ""
    ensures Split(sep + s, sep) == [""] + Split(s, sep)
  {
    assert (sep + s)[|sep|..] == s && StartsWith(sep + s, sep);
  }

  /** Splitting undoes joining when the separator's first character is in no part. */
  lemma {:induction false} SplitUndoesJoin(head: string, rest: seq<string>, sep: string)
    requires sep != "" && sep[0] !in head && forall k :: 0 <= k < |rest| ==> sep[0] !in rest[k]
    ensures Split(Join([head] + rest, sep), sep) == [head] + rest
    decreases |rest|, |head|
  {
    if head != "" {
      var x, tl := head[0], head[1..];
      assert head == [x] + tl;
      JoinHead(x, tl, rest, sep);
      SplitUndoesJoin(tl, rest, sep);
      assert x == head[0] && x != sep[0];
      assert ([x] + Join([tl] + rest, sep))[0] == x;
      SplitHead(Join([tl] + rest, sep), sep, x);
      assert ([tl] + rest)[1..] == rest;
    } else if rest == [] {
      assert [head] + rest == [""];
    } else {
      JoinEmptyHead(rest, sep);
      SplitAtSep(Join(rest, sep), sep);
      assert [rest[0]] + rest[1..] == rest;
      SplitUndoesJoin(rest[0], rest[1..], sep);
    }
  }
}
