/** Patterns over device groups: toPython strips their marks, and that keeps their meaning for exactly some of them. */
module GroupPatterns {
  import opened PyStrings
  import opened LikePatterns

  predicate Mark(c: char) {
    c == '%' || c == '|'
  }

  /** value.strip('%|') */
  function StripMarks(s: string): string
    decreases |s|
  {
    if s == "" then ""
    else if Mark(s[0]) then StripMarks(s[1..])
    else if Mark(s[|s| - 1]) then StripMarks(s[..|s| - 1])
    else s
  }

  ghost predicate Marks(s: string) {
    forall k :: 0 <= k < |s| ==> Mark(s[k])
  }

  /** The marks that are stripped, those at the start and those at the end. */
  ghost predicate StripsTo(s: string, p: string, w: string, q: string) {
    s == p + w + q && Marks(p) && Marks(q) && (w == "" ==> q == "") && (w != "" ==> !Mark(w[0]) && !Mark(w[|w| - 1]))
  }

  lemma NoMarkFirst(s: string, p: string)
    requires s != "" && !Mark(s[0]) && Marks(p) && p <= s
    ensures p == ""
  {
  }

  lemma {:induction false} StripParts(s: string) returns (p: string, q: string)
    ensures StripsTo(s, p, StripMarks(s), q)
    decreases |s|
  {
    p, q := "", "";
    if s == "" {
    } else if Mark(s[0]) {
      p, q := StripParts(s[1..]);
      assert s == [s[0]] + (p + StripMarks(s[1..]) + q);
      p := [s[0]] + p;
    } else if Mark(s[|s| - 1]) {
      var n := |s| - 1;
      p, q := StripParts(s[..n]);
      assert s == (p + StripMarks(s[..n]) + q) + [s[n]];
      NoMarkFirst(s, p);
      assert StripMarks(s[..n]) != "" by { assert s[..n][0] == s[0]; }
      q := q + [s[n]];
    }
  }

  /** A percent sign at both ends, no bar among the marks that are stripped, and no wildcard inside. */
  ghost predicate GroupPattern(s: string) {
    && StartsWith(s, "%") && EndsWith(s, "%") && WildFree(StripMarks(s))
    && multiset(s)['|'] == multiset(StripMarks(s))['|']
  }

  lemma BarsStripped(s: string, p: string, w: string, q: string)
    requires StripsTo(s, p, w, q)
    ensures multiset(s)['|'] == multiset(w)['|'] <==> '|' !in p && '|' !in q
  {
    assert multiset(s) == multiset(p) + multiset(w) + multiset(q);
  }

  /** The stripped test and LIKE agree on every text. */
  ghost predicate StripAgrees(s: string) {
    forall x :: Contains(x, StripMarks(s)) <==> Like(s, x)
  }

  // ----- trailing percent signs -----

  lemma {:induction false} LikeTrail(p: string, x: string)
    ensures Like(p + "%", x) <==> exists k :: 0 <= k <= |x| && Like(p, x[..k])
    decreases |p| + |x|
  {
    if p == "" {
      assert p + "%" == "%" && x[..0] == "";
      LikeAnything(x);
    } else if p[0] == '%' {
      LikeTrailPercent(p, x);
    } else {
      assert (p + "%")[1..] == p[1..] + "%";
      if x != "" {
        LikeTrail(p[1..], x[1..]);
        if k :| 0 <= k <= |x| && Like(p, x[..k]) { assert x[..k][1..] == x[1..][..k - 1]; }
        if k :| 0 <= k <= |x[1..]| && Like(p[1..], x[1..][..k]) { assert x[..k + 1][1..] == x[1..][..k]; }
      }
    }
  }

  lemma {:induction false} LikeTrailPercent(p: string, x: string)
    requires p != "" && p[0] == '%'
    ensures Like(p + "%", x) <==> exists k :: 0 <= k <= |x| && Like(p, x[..k])
    decreases |p| + |x|, 0
  {
    assert (p + "%")[1..] == p[1..] + "%";
    LikeTrail(p[1..], x);
    if x != "" { LikeTrail(p, x[1..]); }
    if Like(p + "%", x) {
      if Like(p[1..] + "%", x) {
        var k :| 0 <= k <= |x| && Like(p[1..], x[..k]);
        assert Like(p, x[..k]);
      } else {
        var k :| 0 <= k <= |x[1..]| && Like(p, x[1..][..k]);
        assert x[..k + 1][1..] == x[1..][..k] && Like(p, x[..k + 1]);
      }
    }
    if k :| 0 <= k <= |x| && Like(p, x[..k]) {
      if !Like(p[1..], x[..k]) { assert x[..k][1..] == x[1..][..k - 1]; }
    }
  }

  ghost predicate Percents(p: string) {
    forall k :: 0 <= k < |p| ==> p[k] == '%'
  }

  /** Percent signs in front skip any number of characters, as one does. */
  lemma {:induction false} FrontPercents(n: string, p: string, x: string)
    requires Percents(n) && n != ""
    ensures Like(n + p, x) <==> exists k :: 0 <= k <= |x| && Like(p, x[k..])
    decreases |n|
  {
    var m := n[1..];
    assert n + p == "%" + (m + p);
    LikePercent(m + p, x);
    if m == "" {
      assert m + p == p;
    } else {
      forall k | 0 <= k <= |x| ensures Like(m + p, x[k..]) <==> exists j :: k <= j <= |x| && Like(p, x[j..]) {
        FrontPercents(m, p, x[k..]);
        assert forall j :: k <= j <= |x| ==> x[k..][j - k..] == x[j..];
        if j :| k <= j <= |x| && Like(p, x[j..]) { assert Like(p, x[k..][j - k..]); }
        if i :| 0 <= i <= |x[k..]| && Like(p, x[k..][i..]) { assert x[k..][i..] == x[k + i..]; }
      }
      if j :| 0 <= j <= |x| && Like(p, x[j..]) { assert Like(m + p, x[0..]); }
    }
  }

  /** And percent signs at the end allow any characters there. */
  lemma {:induction false} EndPercents(p: string, n: string, x: string)
    requires Percents(n) && n != ""
    ensures Like(p + n, x) <==> exists k :: 0 <= k <= |x| && Like(p, x[..k])
    decreases |n|
  {
    var m := n[..|n| - 1];
    assert p + n == (p + m) + "%";
    LikeTrail(p + m, x);
    if m == "" {
      assert p + m == p;
    } else {
      forall k | 0 <= k <= |x| ensures Like(p + m, x[..k]) <==> exists j :: 0 <= j <= k && Like(p, x[..j]) {
        EndPercents(p, m, x[..k]);
        assert forall j :: 0 <= j <= k ==> x[..k][..j] == x[..j];
        if j :| 0 <= j <= k && Like(p, x[..j]) { assert Like(p, x[..k][..j]); }
      }
      if j :| 0 <= j <= |x| && Like(p, x[..j]) { assert Like(p + m, x[..|x|]); }
    }
  }

  /** Between percent signs a text without wildcards is contained. */
  lemma BetweenPercents(n: string, w: string, m: string, x: string)
    requires Percents(n) && Percents(m) && n != "" && m != "" && WildFree(w)
    ensures Like(n + (w + m), x) <==> Contains(x, w)
  {
    FrontPercents(n, w + m, x);
    forall k | 0 <= k <= |x| ensures Like(w + m, x[k..]) <==> StartsWith(x[k..], w) {
      EndPercents(w, m, x[k..]);
      forall j | 0 <= j <= |x[k..]| ensures Like(w, x[k..][..j]) <==> x[k..][..j] == w { LikeLiteral(w, x[k..][..j]); }
      if StartsWith(x[k..], w) { assert Like(w, x[k..][..|w|]); }
    }
  }

  // ----- exactly when stripping is right -----

  lemma MarksWithoutBars(p: string)
    requires Marks(p) && '|' !in p
    ensures Percents(p)
  {
    forall k | 0 <= k < |p| ensures p[k] == '%' { assert p[k] in p; }
  }

  lemma {:induction false} BarsAreFilled(p: string)
    requires Marks(p)
    ensures |Filled(p)| > 0 <==> '|' in p
  {
    if p != "" { BarsAreFilled(p[1..]); }
  }

  /** Texts that hold the stripped pattern and do not match when something is missing. */
  lemma StrippedTooMuch(s: string, p: string, w: string, q: string)
    requires StripsTo(s, p, w, q) && w == StripMarks(s) && StripAgrees(s)
    ensures WildFree(w) && '|' !in p && '|' !in q
  {
    FilledMatches(s);
    OccurrenceIsWildFree(w, Filled(s));
    assert w[0..] == w && StartsWith(w[0..], w) && Contains(w, w);
    MatchIsLong(s, w);
    FilledAdds(p + w, q);
    FilledAdds(p, w);
    FilledOfWildFree(w);
    BarsAreFilled(p);
    BarsAreFilled(q);
  }

  function OtherThan(c: char): char {
    if c == 'a' then 'b' else 'a'
  }

  lemma {:induction false} LastMatches(p: string, d: char, x: string)
    requires !Wild(d) && Like(p + [d], x)
    ensures x != "" && x[|x| - 1] == d
    decreases |p| + |x|
  {
    if p == "" {
      assert p + [d] == [d] && [d][1..] == "";
    } else {
      assert (p + [d])[0] == p[0] && (p + [d])[1..] == p[1..] + [d];
      if p[0] == '%' && Like(p[1..] + [d], x) {
        LastMatches(p[1..], d, x);
      } else if p[0] == '%' {
        LastMatches(p, d, x[1..]);
      } else {
        LastMatches(p[1..], d, x[1..]);
      }
    }
  }

  lemma NothingInFront(w: string, q: string)
    requires w != "" && WildFree(w)
    ensures exists x :: Contains(x, w) && !Like(w + q, x)
  {
    var x := [OtherThan(w[0])] + w;
    assert x[1..] == w && StartsWith(x[1..], w) && Contains(x, w);
    assert !Wild(w[0]) && (w + q)[0] == w[0] && !Like(w + q, x);
  }

  lemma NothingAtTheEnd(p: string, w: string)
    requires w != "" && WildFree(w)
    ensures exists x :: Contains(x, w) && !Like(p + w, x)
  {
    var n := |w| - 1;
    var x := w + [OtherThan(w[n])];
    assert x[0..] == x && x[..|w|] == w && StartsWith(x[0..], w) && Contains(x, w);
    assert p + w == (p + w[..n]) + [w[n]] && !Wild(w[n]);
    if Like(p + w, x) { LastMatches(p + w[..n], w[n], x); }
  }

  /** Stripping the marks keeps the meaning of exactly the group patterns. */
  lemma StrippingIsRight(s: string)
    ensures StripAgrees(s) <==> GroupPattern(s)
  {
    var w := StripMarks(s);
    var p, q := StripParts(s);
    BarsStripped(s, p, w, q);
    EndsAre(s, p, w, q);
    if StripAgrees(s) {
      StrippedTooMuch(s, p, w, q);
      MarksWithoutBars(p);
      MarksWithoutBars(q);
      StripAgreesOnEnds(s, p, w, q);
    } else if GroupPattern(s) {
      MarksWithoutBars(p);
      MarksWithoutBars(q);
      GroupPatternAgrees(s, p, w, q);
    }
  }

  lemma EndsAre(s: string, p: string, w: string, q: string)
    requires StripsTo(s, p, w, q)
    ensures w != "" ==> (p == "" ==> !StartsWith(s, "%")) && (q == "" ==> !EndsWith(s, "%"))
    ensures p != "" ==> (StartsWith(s, "%") <==> p[0] == '%')
    ensures q != "" ==> (EndsWith(s, "%") <==> q[|q| - 1] == '%')
    ensures w == "" ==> s == p
  {
    if s != "" { assert s[..1] == [s[0]] && s[|s| - 1..] == [s[|s| - 1]]; }
  }

  lemma EmptyDisagrees()
    ensures !StripAgrees("")
  {
    assert "a"[0..] == "a" && StartsWith("a"[0..], "") && Contains("a", "") && !Like("", "a");
    assert StripMarks("") == "";
  }

  lemma StripAgreesOnEnds(s: string, p: string, w: string, q: string)
    requires StripsTo(s, p, w, q) && w == StripMarks(s) && StripAgrees(s) && WildFree(w) && Percents(p) && Percents(q)
    ensures StartsWith(s, "%") && EndsWith(s, "%")
  {
    EndsAre(s, p, w, q);
    if w == "" {
      if s == "" {
        EmptyDisagrees();
      } else {
        assert s[|s| - 1..] == [s[|s| - 1]] && s[..1] == [s[0]];
      }
    } else {
      if p == "" { assert s == w + q; NothingInFront(w, q); }
      if q == "" { assert s == p + w; NothingAtTheEnd(p, w); }
    }
  }

  lemma GroupPatternAgrees(s: string, p: string, w: string, q: string)
    requires StripsTo(s, p, w, q) && w == StripMarks(s) && WildFree(w) && Percents(p) && Percents(q)
    requires StartsWith(s, "%") && EndsWith(s, "%")
    ensures StripAgrees(s)
  {
    EndsAre(s, p, w, q);
    forall x ensures Contains(x, w) <==> Like(s, x) {
      if w == "" {
        assert x[0..] == x && StartsWith(x[0..], w) && s == p + "";
        FrontPercents(p, "", x);
        assert x[|x|..] == "";
      } else {
        assert s == p + (w + q);
        BetweenPercents(p, w, q, x);
      }
    }
  }
}
