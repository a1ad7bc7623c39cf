/** Quoting a value into a clause and taking the quotes off again. */
module Quoting {
  import opened PyStrings

  const QUOTE: string := "'"
  const TWO_QUOTES: string := "''"

  /** q: doubles the quotes and wraps the value in quotes. */
  function Q(s: string): string {
    QUOTE + Join(Split(s, QUOTE), TWO_QUOTES) + QUOTE
  }

  /** u: halves the doubled quotes of the whole text, outer ones included, then drops both ends. */
  function U(s: string): string
    requires s != ""
  {
    var c := [s[0]];
    Inner(Join(Split(s, c + c), c))
  }

  predicate Quotable(v: string) {
    v == "" || exists k | 0 <= k < |v| :: v[k] != '\''
  }

  function Doubled(s: string): string {
    if s == "" then "" else if s[0] == '\'' then TWO_QUOTES + Doubled(s[1..]) else [s[0]] + Doubled(s[1..])
  }

  function Halved(s: string): string
    decreases |s|
  {
    if s == "" then ""
    else if StartsWith(s, TWO_QUOTES) then QUOTE + Halved(s[2..])
    else [s[0]] + Halved(s[1..])
  }

  function Quotes(n: nat): string {
    seq(n, _ => '\'')
  }

  lemma {:induction false} JoinSplitDoubles(s: string)
    ensures Join(Split(s, QUOTE), TWO_QUOTES) == Doubled(s)
  {
    JoinSplitSteps(s, QUOTE, TWO_QUOTES);
    if s != "" {
      assert StartsWith(s, QUOTE) <==> s[0] == '\'';
      JoinSplitDoubles(s[1..]);
    }
  }

  lemma {:induction false} JoinSplitHalves(s: string)
    ensures Join(Split(s, TWO_QUOTES), QUOTE) == Halved(s)
    decreases |s|
  {
    JoinSplitSteps(s, TWO_QUOTES, QUOTE);
    if s != "" {
      if StartsWith(s, TWO_QUOTES) { JoinSplitHalves(s[2..]); } else { JoinSplitHalves(s[1..]); }
    }
  }

  predicate AllQuotes(s: string) {
    s == Quotes(|s|)
  }

  lemma QuotesAdd(a: nat, b: nat, s: string)
    ensures Quotes(a) + Quotes(b) == Quotes(a + b)
    ensures Quotes(a) + (Quotes(b) + s) == Quotes(a + b) + s
  {
  }

  /** A run of n quotes that is followed by something else halves on its own, rounding up. */
  lemma {:induction false} HalvedRun(n: nat, s: string)
    requires s == "" || s[0] != '\''
    ensures Halved(Quotes(n) + s) == Quotes((n + 1) / 2) + Halved(s)
    decreases n
  {
    var t := Quotes(n) + s;
    if n == 0 {
      assert t == s && Quotes(0) + Halved(s) == Halved(s);
    } else if n == 1 {
      assert t[0] == '\'' && t[1..] == s;
      assert !StartsWith(t, TWO_QUOTES) by { if |t| >= 2 { assert t[1] == s[0]; } }
      assert Quotes(1) == QUOTE;
    } else {
      assert t[..2] == TWO_QUOTES && t[2..] == Quotes(n - 2) + s;
      HalvedRun(n - 2, s);
      assert QUOTE == Quotes(1);
      QuotesAdd(1, (n - 1) / 2, Halved(s));
    }
  }

  lemma HalvedOther(x: char, s: string)
    requires x != '\''
    ensures Halved([x] + s) == [x] + Halved(s)
  {
    assert ([x] + s)[1..] == s;
  }

  /** n quotes, a doubled value and the closing quote. */
  function Outer(n: nat, s: string): string {
    Quotes(n) + (Doubled(s) + QUOTE)
  }

  function OuterHalved(n: nat, s: string): string {
    if AllQuotes(s) then Quotes(n / 2 + |s| + 1) else Quotes((n + 1) / 2) + (s + QUOTE)
  }

  lemma OuterEmpty(n: nat)
    ensures Outer(n, "") == Quotes(n + 1) + "" && OuterHalved(n, "") == Quotes((n + 2) / 2) + ""
  {
    assert AllQuotes("") && Doubled("") + QUOTE == Quotes(1);
    QuotesAdd(n, 1, "");
  }

  lemma OuterQuote(n: nat, rest: string)
    ensures Outer(n, ['\''] + rest) == Outer(n + 2, rest)
    ensures OuterHalved(n, ['\''] + rest) == OuterHalved(n + 2, rest)
  {
    var s := ['\''] + rest;
    assert s[0] == '\'' && s[1..] == rest;
    assert TWO_QUOTES == Quotes(2) && QUOTE == Quotes(1);
    assert Doubled(s) + QUOTE == Quotes(2) + (Doubled(rest) + QUOTE);
    QuotesAdd(n, 2, Doubled(rest) + QUOTE);
    assert s + QUOTE == Quotes(1) + (rest + QUOTE);
    QuotesAdd((n + 1) / 2, 1, rest + QUOTE);
    assert AllQuotes(rest) ==> AllQuotes(s);
    if AllQuotes(s) { assert rest == Quotes(|s|)[1..]; }
  }

  lemma OuterOther(n: nat, x: char, rest: string)
    requires x != '\''
    ensures Outer(n, [x] + rest) == Quotes(n) + ([x] + Outer(0, rest))
    ensures OuterHalved(n, [x] + rest) == Quotes((n + 1) / 2) + ([x] + OuterHalved(0, rest))
  {
    var s := [x] + rest;
    assert s[0] == x && s[1..] == rest && !AllQuotes(s);
    assert Doubled(s) + QUOTE == [x] + (Doubled(rest) + QUOTE);
    assert Outer(0, rest) == Doubled(rest) + QUOTE;
    assert s + QUOTE == [x] + (rest + QUOTE);
    assert OuterHalved(0, rest) == rest + QUOTE;
  }

  /** The halving runs across the seams between the outer quotes and the value's own. */
  lemma {:induction false} HalvedDoubled(n: nat, s: string)
    ensures Halved(Outer(n, s)) == OuterHalved(n, s)
    decreases |s|
  {
    hide *;
    if s == "" {
      OuterEmpty(n);
      HalvedRun(n + 1, "");
      HalvedEmpty();
    } else {
      var rest := s[1..];
      HalvedDoubled(if s[0] == '\'' then n + 2 else 0, rest);
      assert s == [s[0]] + rest;
      if s[0] == '\'' {
        OuterQuote(n, rest);
      } else {
        OuterOther(n, s[0], rest);
        HalvedRun(n, [s[0]] + Outer(0, rest));
        HalvedOther(s[0], Outer(0, rest));
      }
    }
  }

  lemma HalvedEmpty()
    ensures Halved("") == ""
  {
  }

  lemma HalvedQuoted(v: string)
    ensures Halved(Q(v)) == if AllQuotes(v) then Quotes(|v| + 1) else QUOTE + v + QUOTE
  {
    JoinSplitDoubles(v);
    assert QUOTE == Quotes(1);
    assert Q(v) == Outer(1, v);
    HalvedDoubled(1, v);
    assert Quotes(1) + (v + QUOTE) == QUOTE + v + QUOTE;
  }

  /** Unquoting undoes quoting for exactly the values that are empty or hold something besides quotes. */
  lemma UnquoteUndoesQuote(v: string)
    ensures Q(v) != "" && (U(Q(v)) == v <==> Quotable(v))
    ensures !Quotable(v) ==> U(Q(v)) == v[1..]
  {
    HalvedQuoted(v);
    JoinSplitHalves(Q(v));
    assert Q(v)[0] == '\'' && QUOTE + QUOTE == TWO_QUOTES;
    if AllQuotes(v) {
      assert Inner(Quotes(|v| + 1)) == if v == "" then "" else Quotes(|v| - 1);
      assert v != "" ==> v[1..] == Quotes(|v| - 1);
    } else {
      var k :| 0 <= k < |v| && v[k] != '\'';
      assert Inner(QUOTE + v + QUOTE) == v;
    }
  }
}
