/** Text columns: how a LIKE pattern compiles to a Python test, and when the two agree. */
module LikePatterns {
  import opened PyStrings

  /** A value in a clause, or of a field of an event. */
  datatype Literal = Str(s: string) | Int(n: int)

  /**
   What a compiled comparison tests on a field. Missing is the None that buildPython falls through to, NotPython a
   comparison that is printed with an operator Python does not have.
   */
  datatype PyTest =
    | FieldEndsWith(value: string)
    | FieldStartsWith(value: string)
    | FieldContains(value: string)
    | FieldLacks(value: string)
    | FieldCompares(op: string, literal: Literal)
    | Missing
    | NotPython(op: string, literal: Literal)

  /** Text.buildPython. */
  function BuildPython(mode: string, value: string): PyTest {
    if mode == "like" then
      if StartsWith(value, "%") && !EndsWith(value, "%") then FieldEndsWith(Tail(value))
      else if !StartsWith(value, "%") && EndsWith(value, "%") then FieldStartsWith(Init(value))
      else if StartsWith(value, "%") && EndsWith(value, "%") then FieldContains(Inner(value))
      else Missing
    else if mode == "not like" then FieldLacks(Inner(value))
    else if mode == "=" then FieldCompares("==", Str(value))
    else if mode == "!=" then FieldCompares("!=", Str(value))
    else Missing
  }

  /** Python 2 puts every number before every string. */
  predicate Less(a: Literal, b: Literal) {
    if a.Int? then b.Str? || a.n < b.n else b.Str? && LessText(a.s, b.s)
  }

  predicate LessText(a: string, b: string) {
    b != "" && (a == "" || a[0] < b[0] || (a[0] == b[0] && LessText(a[1..], b[1..])))
  }

  lemma {:induction false} TextsAreOrdered(a: string, b: string, c: string)
    ensures !LessText(a, a) && (LessText(a, b) || a == b || LessText(b, a)) && !(LessText(a, b) && LessText(b, a))
    ensures LessText(a, b) && LessText(b, c) ==> LessText(a, c)
  {
    if a != "" && b != "" {
      TextsAreOrdered(a[1..], b[1..], if c == "" then "" else c[1..]);
      if a[0] == b[0] && a[1..] == b[1..] { assert a == [a[0]] + a[1..] && b == [b[0]] + b[1..]; }
    } else if a != "" {
      TextsAreOrdered(a[1..], a[1..], a[1..]);
    }
  }

  /** The order of Python 2 is total, and every number comes before every string. */
  lemma LessIsTotal(a: Literal, b: Literal, c: Literal)
    ensures !Less(a, a) && (Less(a, b) || a == b || Less(b, a)) && !(Less(a, b) && Less(b, a))
    ensures Less(a, b) && Less(b, c) ==> Less(a, c)
    ensures a.Int? && b.Str? ==> Less(a, b)
  {
    if a.Str? && b.Str? { TextsAreOrdered(a.s, b.s, if c.Str? then c.s else ""); }
    if a.Str? { TextsAreOrdered(a.s, a.s, a.s); }
  }

  predicate Compares(op: string, a: Literal, b: Literal) {
    if op == "==" || op == "=" then a == b
    else if op == "!=" || op == "<>" then a != b
    else if op == "<" then Less(a, b)
    else if op == ">" then Less(b, a)
    else if op == "<=" then !Less(b, a)
    else op == ">=" && !Less(a, b)
  }

  /** The Python truth of the test on a field's value. */
  predicate Passes(t: PyTest, field: Literal) {
    match t
    case FieldEndsWith(v) => field.Str? && EndsWith(field.s, v)
    case FieldStartsWith(v) => field.Str? && StartsWith(field.s, v)
    case FieldContains(v) => field.Str? && Contains(field.s, v)
    case FieldLacks(v) => field.Str? && !Contains(field.s, v)
    case FieldCompares(op, v) => Compares(op, field, v)
    case Missing => false
    case NotPython(_, _) => false
  }

  /** The like predicate of section 8.5 of ISO/IEC 9075:1992, without an escape character. */
  predicate Like(p: string, s: string)
    decreases |p| + |s|
  {
    if p == "" then s == ""
    else if p[0] == '%' then Like(p[1..], s) || (s != "" && Like(p, s[1..]))
    else s != "" && (p[0] == '_' || p[0] == s[0]) && Like(p[1..], s[1..])
  }

  predicate Wild(c: char) {
    c == '%' || c == '_'
  }

  ghost predicate WildFree(s: string) {
    forall k :: 0 <= k < |s| ==> !Wild(s[k])
  }

  /** The SQL truth of a comparison on a field's value. */
  predicate Holds(mode: string, value: string, field: string) {
    if mode == "like" then Like(value, field)
    else if mode == "not like" then !Like(value, field)
    else if mode == "=" then field == value
    else mode == "!=" && field != value
  }

  /** The compiled test and the SQL comparison agree on every field value. */
  ghost predicate Agrees(mode: string, value: string) {
    forall x: string :: Passes(BuildPython(mode, value), Str(x)) <==> Holds(mode, value, x)
  }

  // ----- the matcher on the shapes that occur -----

  lemma {:induction false} LikeLiteral(v: string, s: string)
    requires WildFree(v)
    ensures Like(v, s) <==> s == v
  {
    if v != "" {
      assert !Wild(v[0]);
      if s != "" {
        LikeLiteral(v[1..], s[1..]);
        assert s == [s[0]] + s[1..] && v == [v[0]] + v[1..];
      }
    }
  }

  lemma {:induction false} LikeAnything(s: string)
    ensures Like("%", s)
  {
    if s != "" { LikeAnything(s[1..]); }
  }

  lemma {:induction false} LikePrefix(v: string, s: string)
    requires WildFree(v)
    ensures Like(v + "%", s) <==> StartsWith(s, v)
  {
    if v == "" {
      assert v + "%" == "%";
      LikeAnything(s);
    } else {
      assert !Wild(v[0]) && (v + "%")[1..] == v[1..] + "%";
      if s != "" {
        LikePrefix(v[1..], s[1..]);
        assert v == [v[0]] + v[1..];
        if StartsWith(s, v) { assert s[..|v|][1..] == s[1..][..|v| - 1]; }
        if s[0] == v[0] && StartsWith(s[1..], v[1..]) { assert s[..|v|] == [s[0]] + s[1..][..|v| - 1]; }
      }
    }
  }

  /** A leading percent sign skips any number of characters. */
  lemma {:induction false} LikePercent(p: string, s: string)
    ensures Like("%" + p, s) <==> exists k :: 0 <= k <= |s| && Like(p, s[k..])
    decreases |s|
  {
    assert ("%" + p)[1..] == p && s[0..] == s;
    if s != "" {
      LikePercent(p, s[1..]);
      if k :| 0 <= k <= |s[1..]| && Like(p, s[1..][k..]) { assert s[1..][k..] == s[k + 1..]; }
      if k :| 0 < k <= |s| && Like(p, s[k..]) { assert s[1..][k - 1..] == s[k..]; }
    } else if k :| 0 <= k <= |s| && Like(p, s[k..]) {
      assert k == 0;
    }
  }

  lemma LikeSuffix(v: string, s: string)
    requires WildFree(v)
    ensures Like("%" + v, s) <==> EndsWith(s, v)
  {
    LikePercent(v, s);
    if EndsWith(s, v) {
      LikeLiteral(v, s[|s| - |v|..]);
    }
    if k :| 0 <= k <= |s| && Like(v, s[k..]) {
      LikeLiteral(v, s[k..]);
    }
  }

  lemma LikeInfix(v: string, s: string)
    requires WildFree(v)
    ensures Like("%" + v + "%", s) <==> Contains(s, v)
  {
    assert "%" + v + "%" == "%" + (v + "%");
    LikePercent(v + "%", s);
    if Contains(s, v) {
      var k :| 0 <= k <= |s| && StartsWith(s[k..], v);
      LikePrefix(v, s[k..]);
    }
    if k :| 0 <= k <= |s| && Like(v + "%", s[k..]) {
      LikePrefix(v, s[k..]);
    }
  }

  // ----- a match without wildcard characters, and the shortest match -----

  /** The pattern with its percent signs dropped and its underscores filled in. */
  function Filled(p: string): string {
    if p == "" then "" else if p[0] == '%' then Filled(p[1..])
    else [if p[0] == '_' then 'a' else p[0]] + Filled(p[1..])
  }

  lemma {:induction false} FilledMatches(p: string)
    ensures Like(p, Filled(p)) && WildFree(Filled(p)) && |Filled(p)| <= |p|
  {
    if p != "" {
      FilledMatches(p[1..]);
      if p[0] != '%' {
        assert Filled(p)[1..] == Filled(p[1..]);
      }
    }
  }

  /** Every match is at least as long as the filled pattern. */
  lemma {:induction false} MatchIsLong(p: string, s: string)
    requires Like(p, s)
    ensures |Filled(p)| <= |s|
    decreases |p| + |s|
  {
    if p != "" {
      if p[0] == '%' && !Like(p[1..], s) {
        MatchIsLong(p, s[1..]);
      } else if p[0] == '%' {
        MatchIsLong(p[1..], s);
      } else {
        MatchIsLong(p[1..], s[1..]);
      }
    }
  }

  lemma {:induction false} FilledAdds(p: string, q: string)
    ensures Filled(p + q) == Filled(p) + Filled(q)
  {
    if p == "" {
      assert p + q == q && Filled(p) + Filled(q) == Filled(q);
    } else {
      assert (p + q)[1..] == p[1..] + q;
      FilledAdds(p[1..], q);
    }
  }

  lemma {:induction false} FilledOfWildFree(w: string)
    requires WildFree(w)
    ensures |Filled(w)| == |w|
  {
    if w != "" {
      assert !Wild(w[0]);
      FilledOfWildFree(w[1..]);
    }
  }

  lemma FilledChar(c: char)
    ensures |Filled([c])| == if c == '%' then 0 else 1
  {
    assert [c][1..] == "";
  }

  /** What occurs in a text without wildcard characters has none. */
  lemma OccurrenceIsWildFree(w: string, s: string)
    requires WildFree(s) && (Contains(s, w) || StartsWith(s, w) || EndsWith(s, w))
    ensures WildFree(w)
  {
    var k := if EndsWith(s, w) then |s| - |w| else 0;
    if Contains(s, w) {
      k :| 0 <= k <= |s| && StartsWith(s[k..], w);
    }
    assert k + |w| <= |s| && forall j :: 0 <= j < |w| ==> s[k..][j] == w[j];
    forall j | 0 <= j < |w| ensures !Wild(w[j]) {
      assert s[k..][j] == s[k + j];
    }
  }

  // ----- exactly when compiling is right -----

  /** The part of a like pattern that buildPython takes literally. */
  function Bare(value: string): string {
    if StartsWith(value, "%") && EndsWith(value, "%") then Inner(value)
    else if StartsWith(value, "%") then Tail(value)
    else Init(value)
  }

  lemma PatternShape(value: string)
    ensures StartsWith(value, "%") && EndsWith(value, "%") ==> value == "%" || value == "%" + Inner(value) + "%"
    ensures StartsWith(value, "%") ==> value == "%" + Tail(value)
    ensures EndsWith(value, "%") ==> value == Init(value) + "%"
  {
    if StartsWith(value, "%") { assert value[..1] == "%" && value == value[..1] + value[1..]; }
    if EndsWith(value, "%") { assert value[|value| - 1..] == "%"
        && value == value[..|value| - 1] + value[|value| - 1..]; }
    if StartsWith(value, "%") && EndsWith(value, "%") {
      if |value| >= 2 {
        assert value == value[..1] + value[1..|value| - 1] + value[|value| - 1..];
      } else {
        assert value == value[..1];
      }
    }
  }

  lemma LikeCompilesAt(value: string, x: string)
    requires (StartsWith(value, "%") || EndsWith(value, "%")) && WildFree(Bare(value))
    ensures Passes(BuildPython("like", value), Str(x)) <==> Like(value, x)
  {
    PatternShape(value);
    var v := Bare(value);
    if StartsWith(value, "%") && EndsWith(value, "%") {
      LikeInfix(v, x);
      LikeAnything(x);
      assert x[0..] == x && StartsWith(x, "");
    } else if StartsWith(value, "%") {
      LikeSuffix(v, x);
    } else {
      LikePrefix(v, x);
    }
  }

  /** A like pattern compiles correctly exactly when it has a percent sign at an end and no other wildcard. */
  lemma LikeCompiles(value: string)
    ensures Agrees("like", value) <==> (StartsWith(value, "%") || EndsWith(value, "%")) && WildFree(Bare(value))
  {
    if (StartsWith(value, "%") || EndsWith(value, "%")) && WildFree(Bare(value)) {
      forall x: string ensures Passes(BuildPython("like", value), Str(x)) <==> Holds("like", value, x) {
        LikeCompilesAt(value, x);
      }
    } else {
      var x := Filled(value);
      FilledMatches(value);
      if Passes(BuildPython("like", value), Str(x)) {
        OccurrenceIsWildFree(Bare(value), x);
      }
      assert !Passes(BuildPython("like", value), Str(x)) && Holds("like", value, x);
    }
  }

  /** A negated pattern compiles correctly exactly when it has percent signs at both ends and no other wildcard. */
  lemma NotLikeCompiles(value: string)
    ensures Agrees("not like", value) <==> StartsWith(value, "%") && EndsWith(value, "%") && WildFree(Inner(value))
  {
    var w := Inner(value);
    if !WildFree(w) {
      var x := Filled(value);
      FilledMatches(value);
      if Contains(x, w) { OccurrenceIsWildFree(w, x); }
      assert Passes(BuildPython("not like", value), Str(x)) && !Holds("not like", value, x);
    } else if StartsWith(value, "%") && EndsWith(value, "%") {
      forall x: string ensures Passes(BuildPython("not like", value), Str(x)) <==> Holds("not like", value, x) {
        LikeCompilesAt(value, x);
      }
    } else {
      OpenPatternNeedsMore(value);
      var x := if value == "" then "a" else w;
      assert x[0..] == x && StartsWith(x, w);
      assert !Passes(BuildPython("not like", value), Str(x)) && Holds("not like", value, x);
    }
  }

  /** Without percent signs at both ends the pattern asks for more than its inner text. */
  lemma OpenPatternNeedsMore(value: string)
    requires WildFree(Inner(value)) && !(StartsWith(value, "%") && EndsWith(value, "%"))
    ensures value == "" || !Like(value, Inner(value))
  {
    var w := Inner(value);
    if value != "" {
      var a, b := value[0], value[|value| - 1];
      assert a == '%' ==> StartsWith(value, "%");
      assert b == '%' ==> EndsWith(value, "%");
      FilledChar(a);
      FilledChar(b);
      FilledOfWildFree(w);
      if |value| == 1 {
        assert value == [a];
      } else {
        assert value == [a] + (w + [b]);
        FilledAdds([a], w + [b]);
        FilledAdds(w, [b]);
      }
      if Like(value, w) { MatchIsLong(value, w); }
    }
  }

  /** The plain comparisons always compile correctly. */
  lemma ComparisonsCompile(value: string)
    ensures Agrees("=", value) && Agrees("!=", value)
  {
  }
}
